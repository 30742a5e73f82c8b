/** The account tables: users keyed by a unique email, and one memory collection per
    user whose unique name is derived from the email. The SQL session is a class
    holding the two tables as sequences in insertion order; ids are assigned 1, 2, …
    as SQLite does for a table that is only ever appended to. */
module Accounts {
  import opened Seqs
  import opened Text

  const CollectionPrefix: string := "memory_"

  /** `s` with every `c` turned into `d`. */
  function Subst(s: string, c: char, d: char): (r: string)
    ensures |r| == |s|
    ensures forall i :: 0 <= i < |s| ==> r[i] == if s[i] == c then d else s[i]
  {
    if s == [] then [] else [if s[0] == c then d else s[0]] + Subst(s[1..], c, d)
  }

  /** Replacing a one-character pattern by one character substitutes it in place. */
  lemma {:induction false} ReplaceCharIsSubst(s: string, c: char, d: char)
    ensures ReplaceAll(s, [c], [d]) == Subst(s, c, d)
  {
    if s != [] {
      ReplaceCharIsSubst(s[1..], c, d);
      assert s[..1] == [s[0]];
    }
  }

  /** The collection name for an email: "memory_" and the email with '@' and '.'
      replaced by '_'. */
  function CollectionName(email: string): string {
    CollectionPrefix + ReplaceAll(ReplaceAll(email, "@", "_"), ".", "_")
  }

  /** Character by character, the name is the email with '@' and '.' made '_'. */
  lemma CollectionNameChars(email: string)
    ensures var n := CollectionName(email);
            && |n| == |email| + 7 && n[..7] == CollectionPrefix
            && (forall i :: 0 <= i < |email| ==>
                  n[7 + i] == NameChar(email[i]))
            && '@' !in n && '.' !in n
  {
    ReplaceCharIsSubst(email, '@', '_');
    ReplaceCharIsSubst(Subst(email, '@', '_'), '.', '_');
    var n := CollectionName(email);
    assert n == CollectionPrefix + Subst(Subst(email, '@', '_'), '.', '_');
    forall k | 0 <= k < |n| ensures n[k] != '@' && n[k] != '.' {
      if k >= 7 {
        assert n[k] == Subst(Subst(email, '@', '_'), '.', '_')[k - 7];
      }
    }
  }

  /** The character an email character becomes in the name. */
  function NameChar(c: char): char {
    if c == '@' || c == '.' then '_' else c
  }

  /** Two emails share a name exactly when they agree once '@' and '.' are made '_'. */
  lemma SameNameIff(e1: string, e2: string)
    ensures CollectionName(e1) == CollectionName(e2) <==>
              |e1| == |e2| && forall i :: 0 <= i < |e1| ==> NameChar(e1[i]) == NameChar(e2[i])
  {
    CollectionNameChars(e1);
    CollectionNameChars(e2);
    var n1, n2 := CollectionName(e1), CollectionName(e2);
    if |e1| == |e2| && forall i :: 0 <= i < |e1| ==> NameChar(e1[i]) == NameChar(e2[i]) {
      forall k | 0 <= k < |n1| ensures n1[k] == n2[k] {
        if k >= 7 {
          assert n1[k] == NameChar(e1[k - 7]);
        } else {
          assert n1[k] == n1[..7][k] && n2[k] == n2[..7][k];
        }
      }
    }
    if n1 == n2 {
      forall i | 0 <= i < |e1| ensures NameChar(e1[i]) == NameChar(e2[i]) {
        assert n1[7 + i] == n2[7 + i];
      }
    }
  }

  /** The mapping is not injective: two different emails can share a name. */
  lemma CollectionNameCollides()
    ensures "a.b@x" != "a_b@x" && CollectionName("a.b@x") == CollectionName("a_b@x")
  {
    var e1, e2 := "a.b@x", "a_b@x";
    assert e1[1] != e2[1];
    assert forall i :: 0 <= i < |e1| ==> NameChar(e1[i]) == NameChar(e2[i]) by {
      assert NameChar(e1[0]) == NameChar(e2[0]);
      assert NameChar(e1[1]) == NameChar(e2[1]);
      assert NameChar(e1[2]) == NameChar(e2[2]);
      assert NameChar(e1[3]) == NameChar(e2[3]);
      assert NameChar(e1[4]) == NameChar(e2[4]);
    }
    SameNameIff(e1, e2);
  }

  datatype UserRow = UserRow(id: nat, email: string)
  datatype CollectionRow = CollectionRow(id: nat, userId: nat, collectionName: string)

  /** `get_user_by_email`: the first user with that email. */
  function FindUser(users: seq<UserRow>, email: string): (r: Option<UserRow>)
    ensures r.Some? ==> r.value in users && r.value.email == email
    ensures r.None? <==> forall u :: u in users ==> u.email != email
  {
    if users == [] then None
    else if users[0].email == email then Some(users[0])
    else FindUser(users[1..], email)
  }

  /** `get_memory_collection_by_user`: the first collection of that user. */
  function FindCollection(cols: seq<CollectionRow>, userId: nat): (r: Option<CollectionRow>)
    ensures r.Some? ==> r.value in cols && r.value.userId == userId
    ensures r.None? <==> forall c :: c in cols ==> c.userId != userId
  {
    if cols == [] then None
    else if cols[0].userId == userId then Some(cols[0])
    else FindCollection(cols[1..], userId)
  }

  predicate NameTaken(cols: seq<CollectionRow>, name: string) {
    exists c :: c in cols && c.collectionName == name
  }

  /** Row ids are 1, 2, … in order, and the unique columns hold no repeats. */
  ghost predicate TablesValid(users: seq<UserRow>, cols: seq<CollectionRow>) {
    && (forall i :: 0 <= i < |users| ==> users[i].id == i + 1)
    && (forall i, j :: 0 <= i < j < |users| ==> users[i].email != users[j].email)
    && (forall i :: 0 <= i < |cols| ==> cols[i].id == i + 1)
    && (forall i, j :: 0 <= i < j < |cols| ==> cols[i].collectionName != cols[j].collectionName)
  }

  /** The users table after `get_or_create_user(email)`. */
  function UsersAfter(users: seq<UserRow>, email: string): seq<UserRow> {
    if FindUser(users, email).Some? then users else users + [UserRow(|users| + 1, email)]
  }

  /** `get_or_create_user` is idempotent: a second call finds the first call's user
      and adds nothing. */
  lemma GetOrCreateUserIdempotent(users: seq<UserRow>, email: string)
    ensures FindUser(UsersAfter(users, email), email).Some?
    ensures UsersAfter(UsersAfter(users, email), email) == UsersAfter(users, email)
  {
    var after := UsersAfter(users, email);
    assert after[|after| - 1].email == email || FindUser(users, email).Some?;
    if FindUser(users, email).None? {
      assert after[|users|] in after;
    }
  }

  /** The collections table after `get_or_create_memory_collection(user_id, email)`;
      None when the insert violates the unique name. */
  function CollectionsAfter(cols: seq<CollectionRow>, userId: nat, email: string): Option<seq<CollectionRow>> {
    if FindCollection(cols, userId).Some? then Some(cols)
    else if NameTaken(cols, CollectionName(email)) then None
    else Some(cols + [CollectionRow(|cols| + 1, userId, CollectionName(email))])
  }

  /** Two users without collections whose emails map to one name cannot both get one:
      once the first is given its new collection, creating the second's fails on the
      unique name. */
  lemma CollidingEmailsConflict(cols: seq<CollectionRow>, a: nat, b: nat, ea: string, eb: string)
    requires a != b && CollectionName(ea) == CollectionName(eb)
    requires FindCollection(cols, a).None? && FindCollection(cols, b).None?
    requires CollectionsAfter(cols, a, ea).Some?
    ensures CollectionsAfter(CollectionsAfter(cols, a, ea).value, b, eb).None?
  {
    var after := CollectionsAfter(cols, a, ea).value;
    var row := CollectionRow(|cols| + 1, a, CollectionName(ea));
    assert after == cols + [row];
    assert row in after;
  }

  class Session {
    var users: seq<UserRow>
    var collections: seq<CollectionRow>

    ghost predicate Valid()
      reads this
    {
      TablesValid(users, collections)
    }

    constructor ()
      ensures Valid() && users == [] && collections == []
    {
      users := [];
      collections := [];
    }

    /** `get_user_by_email` */
    function GetUserByEmail(email: string): Option<UserRow>
      reads this
    {
      FindUser(users, email)
    }

    /** `create_user`: appends a user; an email already present violates the unique
        column, the commit fails and nothing changes (None). */
    method CreateUser(email: string) returns (user: Option<UserRow>)
      requires Valid()
      modifies this
      ensures Valid() && collections == old(collections)
      ensures FindUser(old(users), email).Some? ==> user.None? && users == old(users)
      ensures FindUser(old(users), email).None? ==>
                user == Some(UserRow(|old(users)| + 1, email)) && users == old(users) + [user.value]
    {
      if FindUser(users, email).Some? {
        return None;
      }
      var row := UserRow(|users| + 1, email);
      users := users + [row];
      user := Some(row);
    }

    /** `get_or_create_user`: the existing user for the email, or a new one. */
    method GetOrCreateUser(email: string) returns (user: UserRow)
      requires Valid()
      modifies this
      ensures Valid() && collections == old(collections)
      ensures users == UsersAfter(old(users), email)
      ensures user.email == email && user in users
      ensures FindUser(old(users), email).Some? ==> user == FindUser(old(users), email).value
    {
      var found := GetUserByEmail(email);
      if found.Some? {
        return found.value;
      }
      var created := CreateUser(email);
      user := created.value;
      assert users[|users| - 1] == user;
    }

    /** `create_memory_collection`: appends a collection row; a name already present
        violates the unique column (None, nothing changes). */
    method CreateMemoryCollection(userId: nat, name: string) returns (col: Option<CollectionRow>)
      requires Valid()
      modifies this
      ensures Valid() && users == old(users)
      ensures NameTaken(old(collections), name) ==> col.None? && collections == old(collections)
      ensures !NameTaken(old(collections), name) ==>
                col == Some(CollectionRow(|old(collections)| + 1, userId, name))
                && collections == old(collections) + [col.value]
    {
      if exists c :: c in collections && c.collectionName == name {
        return None;
      }
      var row := CollectionRow(|collections| + 1, userId, name);
      assert forall i :: 0 <= i < |collections| ==> collections[i].collectionName != name by {
        forall i | 0 <= i < |collections| ensures collections[i].collectionName != name {
          assert collections[i] in collections;
        }
      }
      collections := collections + [row];
      col := Some(row);
    }

    /** `get_or_create_memory_collection`: the user's existing collection (nothing is
        created), or a new one named after the email; None when that name is taken. */
    method GetOrCreateMemoryCollection(userId: nat, email: string) returns (col: Option<CollectionRow>)
      requires Valid()
      modifies this
      ensures Valid() && users == old(users)
      ensures CollectionsAfter(old(collections), userId, email).Some? ==>
                col.Some? && collections == CollectionsAfter(old(collections), userId, email).value
      ensures CollectionsAfter(old(collections), userId, email).None? ==>
                col.None? && collections == old(collections)
      ensures FindCollection(old(collections), userId).Some? ==>
                col == FindCollection(old(collections), userId) && collections == old(collections)
      ensures col.Some? ==> col.value.userId == userId
    {
      var existing := FindCollection(collections, userId);
      if existing.Some? {
        return existing;
      }
      var name := CollectionName(email);
      col := CreateMemoryCollection(userId, name);
    }
  }
}
