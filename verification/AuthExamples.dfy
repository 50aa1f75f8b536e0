/** The user and the configuration of the example runs. */
module AuthExamples {
  import opened Ttl
  import opened Tokens
  import opened AuthSpec

  const ALICE: map<string, User> := map["u" := User("e", Bcrypt("p"))]
  const SECRET: string := "0123456789abcdef0123456789abcdef"
  const SETUP := Setup(Config(SECRET, "iss", "aud", 15 * MINUTE), 7 * 24 * HOUR)

  lemma AliceHasHerAddress(users: map<string, User>)
    requires users.Keys == {"u"} && users["u"].email == "e"
    ensures FindByEmail(users, "e") == Some("u")
  {
    assert "u" in users && users["u"].email == "e";
  }
}
