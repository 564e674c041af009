/**
 * Stand-in for bcrypt (`bcrypt.GenerateFromPassword` / `bcrypt.CompareHashAndPassword`).
 * The hash is an injective function of the password: salt and cost are not modelled,
 * and neither is one-wayness (which no finite model can state).
 */
module PasswordHash {

  /** Prefix of every hashed form; it only serves to make a hash differ from its plaintext. */
  const HashPrefix: string := "$2a$10$"

  /** The stored form of `password`. */
  function Hash(password: string): (hashed: string)
    ensures |hashed| > |password|
    ensures hashed != password
  {
    HashPrefix + password
  }

  /** `CompareHashAndPassword(hashed, password) == nil`. */
  predicate Matches(hashed: string, password: string)
  {
    hashed == Hash(password)
  }

  /** A hash accepts its own password and no other one. */
  lemma MatchesExactly(password: string, attempt: string)
    ensures Matches(Hash(password), attempt) <==> attempt == password
  {
    if Matches(Hash(password), attempt) {
      assert Hash(password)[|HashPrefix|..] == password;
      assert Hash(attempt)[|HashPrefix|..] == attempt;
    }
  }
}
