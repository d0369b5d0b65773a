/** The fixed credential table of the application and the lookup the login
    handler performs on it (src/App.jsx, lines 20-23 and 28-32). */
module Credentials {
  import opened Wrappers

  /** One entry of the table. Passwords are plain text and roles are plain
      strings, exactly as the application stores them. */
  datatype Credential = Credential(username: string, password: string, role: string)

  /** The two entries of the mock user database, in source order. */
  const ValidUsers: seq<Credential> := [
    Credential("user1", "pass123", "user"),
    Credential("admin1", "admin123", "admin")
  ]

  /** The predicate handed to `Array.prototype.find`: an exact, field-by-field
      comparison with no normalisation of any kind. */
  predicate Matches(c: Credential, username: string, password: string, role: string)
  {
    c.username == username && c.password == password && c.role == role
  }

  /** `users.find(...)`: the first entry that matches, scanning from the front.
      Since a match fixes all three fields, the entry found is the typed triple
      itself, and one is found exactly when that triple is in the table. */
  function Find(users: seq<Credential>, username: string, password: string, role: string): (r: Option<Credential>)
    ensures r.Some? <==> Credential(username, password, role) in users
    ensures r.Some? ==> r.value == Credential(username, password, role)
    ensures r.None? <==> forall i :: 0 <= i < |users| ==> !Matches(users[i], username, password, role)
  {
    if |users| == 0 then None
    else if Matches(users[0], username, password, role) then Some(users[0])
    else Find(users[1..], username, password, role)
  }

  /** The typed triple is one of the table's entries, field for field. */
  predicate Accepted(username: string, password: string, role: string)
  {
    Credential(username, password, role) in ValidUsers
  }

  /** Only the two table entries are accepted, and each only with its own
      password and its own role. */
  lemma AcceptedExactlyTable(username: string, password: string, role: string)
    ensures Accepted(username, password, role) <==>
      || (username == "user1" && password == "pass123" && role == "user")
      || (username == "admin1" && password == "admin123" && role == "admin")
  {
    var c := Credential(username, password, role);
    if Accepted(username, password, role) {
      assert c in ValidUsers;
      assert c == ValidUsers[0] || c == ValidUsers[1];
    }
  }

  /** Changing any single field of a table entry makes the triple fail. */
  lemma OneFieldOffIsRejected(i: nat, username: string, password: string, role: string)
    requires i < |ValidUsers|
    requires username != ValidUsers[i].username || password != ValidUsers[i].password || role != ValidUsers[i].role
    requires (username == ValidUsers[i].username && password == ValidUsers[i].password)
          || (username == ValidUsers[i].username && role == ValidUsers[i].role)
          || (password == ValidUsers[i].password && role == ValidUsers[i].role)
    ensures !Accepted(username, password, role)
  {
    AcceptedExactlyTable(username, password, role);
  }
}
