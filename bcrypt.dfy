/**
 * The two bcryptjs calls the server makes (`hashSync` and `compareSync`),
 * over an abstract digest. The real digest is a one-way string; here it
 * records what went into it, and only CompareSync looks inside, so the
 * model assumes an ideal, collision-free hash and nothing about bcrypt's
 * internals.
 */
module Bcrypt {

  /** The cost factor every `hashSync` call in the server passes. */
  const Rounds: nat := 10

  /** A stored password digest; `salt` stands for the random salt `hashSync` draws. */
  datatype Digest = Digest(rounds: nat, salt: nat, preimage: string)

  /** `bcrypt.compareSync(password, digest)`: does `password` hash to `d`? */
  predicate CompareSync(password: string, d: Digest)
  {
    password == d.preimage
  }

  /** `bcrypt.hashSync(password, rounds)`, with the salt it would draw passed in. */
  function HashSync(password: string, rounds: nat, salt: nat): (d: Digest)
    ensures CompareSync(password, d)
    ensures forall other {:trigger CompareSync(other, d)} :: CompareSync(other, d) ==> other == password
    ensures d.rounds == rounds && d.salt == salt
  {
    Digest(rounds, salt, password)
  }
}
