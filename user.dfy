/** A user account as the identity API returns it (src/user.rs), its table row, and pattern matching. */
module Users {
  import opened Wrappers

  datatype User = User(email: string, user_id: string, nickname: Option<string>, last_login: Option<string>)

  /** `p` occurs in `s` as a contiguous block starting at index `i`. */
  predicate OccursAt(p: string, s: string, i: nat)
  {
    i + |p| <= |s| && s[i..i + |p|] == p
  }

  /** `p` is a contiguous substring of `s`. */
  ghost predicate IsSubstring(p: string, s: string)
  {
    exists i: nat :: OccursAt(p, s, i)
  }

  /** `str::find` started at `from`: the first index at or after `from` where `p` occurs in `s`. */
  function FindFrom(s: string, p: string, from: nat): (r: Option<nat>)
    requires from <= |s|
    ensures r.Some? ==> from <= r.value && OccursAt(p, s, r.value)
    ensures r.Some? ==> forall j: nat :: from <= j < r.value ==> !OccursAt(p, s, j)
    ensures r.None? ==> forall j: nat :: from <= j ==> !OccursAt(p, s, j)
    decreases |s| - from
  {
    if from + |p| > |s| then None
    else if s[from..from + |p|] == p then Some(from)
    else
      assert |p| > 0;
      FindFrom(s, p, from + 1)
  }

  /** `str::find`: the first index where `p` occurs in `s`, or `None`; `find("")` is `Some(0)`. */
  function Find(s: string, p: string): (r: Option<nat>)
    ensures r.Some? <==> IsSubstring(p, s)
    ensures r.Some? ==> OccursAt(p, s, r.value) && forall j: nat :: j < r.value ==> !OccursAt(p, s, j)
  {
    FindFrom(s, p, 0)
  }

  /** `User::matches`: the pattern is a case-sensitive substring of the email or of the user id. */
  function Matches(u: User, pattern: string): (r: bool)
    ensures r <==> IsSubstring(pattern, u.email) || IsSubstring(pattern, u.user_id)
  {
    match (Find(u.email, pattern), Find(u.user_id, pattern))
    case (None, None) => false
    case _ => true
  }

  /** `User::to_table_row`: email, user id, nickname and last login, an absent value shown as "". */
  function ToTableRow(u: User): (row: seq<string>)
    ensures |row| == 4
    ensures row[0] == u.email && row[1] == u.user_id
    ensures u.nickname.Some? ==> row[2] == u.nickname.value
    ensures u.nickname.None? ==> row[2] == ""
    ensures u.last_login.Some? ==> row[3] == u.last_login.value
    ensures u.last_login.None? ==> row[3] == ""
  {
    var nickname := u.nickname.GetOr("");
    var last_login := u.last_login.GetOr("");
    [u.email, u.user_id, nickname, last_login]
  }

  /** Reads a table row back into a user, taking an empty optional cell as absent. */
  function UserOfRow(row: seq<string>): (u: Option<User>)
    ensures u.Some? <==> |row| == 4
  {
    if |row| != 4 then None
    else
      var opt := (cell: string) => if cell == "" then None else Some(cell);
      Some(User(row[0], row[1], opt(row[2]), opt(row[3])))
  }

  /** A row gives back its user whenever the optional fields are absent or non-empty. */
  lemma RowRoundTrip(u: User)
    requires u.nickname != Some("") && u.last_login != Some("")
    ensures UserOfRow(ToTableRow(u)) == Some(u)
  {
  }

  /** An absent optional field and an empty one print the same row. */
  lemma RowShowsEmptyAsAbsent(u: User)
    ensures ToTableRow(u.(nickname := None)) == ToTableRow(u.(nickname := Some("")))
    ensures ToTableRow(u.(last_login := None)) == ToTableRow(u.(last_login := Some("")))
  {
  }

  /** Every block of a field is matched: prefixes, infixes and suffixes of email and user id. */
  lemma {:induction false} SliceMatches(u: User, i: nat, j: nat)
    ensures i <= j <= |u.email| ==> Matches(u, u.email[i..j])
    ensures i <= j <= |u.user_id| ==> Matches(u, u.user_id[i..j])
  {
    if i <= j <= |u.email| {
      assert OccursAt(u.email[i..j], u.email, i);
    }
    if i <= j <= |u.user_id| {
      assert OccursAt(u.user_id[i..j], u.user_id, i);
    }
  }

  /** A user matches its own full email and its own full user id. */
  lemma {:induction false} MatchesOwnFields(u: User)
    ensures Matches(u, u.email) && Matches(u, u.user_id)
  {
    SliceMatches(u, 0, |u.email|);
    SliceMatches(u, 0, |u.user_id|);
    assert u.email[0..|u.email|] == u.email;
    assert u.user_id[0..|u.user_id|] == u.user_id;
  }

  /** The empty pattern matches every user, since `find("")` is `Some(0)`. */
  lemma {:induction false} EmptyPatternMatchesAll(u: User)
    ensures Matches(u, "")
  {
    assert OccursAt("", u.email, 0);
  }

  /** A pattern that occurs in a string starts with a character of that string. */
  lemma {:induction false} FirstCharOfSubstring(p: string, s: string)
    requires |p| > 0 && IsSubstring(p, s)
    ensures p[0] in s
  {
    var i: nat :| OccursAt(p, s, i);
    assert s[i] == s[i..i + |p|][0];
  }

  /** A pattern whose first character does not occur in either field matches nothing. */
  lemma {:induction false} AbsentFirstCharNoMatch(u: User, pattern: string)
    requires |pattern| > 0 && pattern[0] !in u.email && pattern[0] !in u.user_id
    ensures !Matches(u, pattern)
  {
    if IsSubstring(pattern, u.email) {
      FirstCharOfSubstring(pattern, u.email);
    } else if IsSubstring(pattern, u.user_id) {
      FirstCharOfSubstring(pattern, u.user_id);
    }
  }

  /** Matching looks only at email and user id, never at nickname or last login. */
  lemma MatchIgnoresOptionalFields(u: User, v: User, pattern: string)
    requires u.email == v.email && u.user_id == v.user_id
    ensures Matches(u, pattern) == Matches(v, pattern)
  {
  }

  /** The repository's `matches_exact` test. */
  lemma {:induction false} MatchesExactExample()
    ensures Matches(User("user@email.test", "2", None, None), "user@email.test")
    ensures Matches(User("user@email.test", "2", None, None), "2")
  {
    MatchesOwnFields(User("user@email.test", "2", None, None));
  }

  /** The repository's `matches_partial` test. */
  lemma {:induction false} MatchesPartialExample()
    ensures Matches(User("user@email.test", "a1b2c3", None, None), ".test")
    ensures Matches(User("user@email.test", "a1b2c3", None, None), "email.test")
    ensures Matches(User("user@email.test", "a1b2c3", None, None), "user")
    ensures Matches(User("user@email.test", "a1b2c3", None, None), "a1b")
    ensures Matches(User("user@email.test", "a1b2c3", None, None), "2c3")
  {
    var u := User("user@email.test", "a1b2c3", None, None);
    assert OccursAt(".test", u.email, 10);
    assert OccursAt("email.test", u.email, 5);
    assert OccursAt("user", u.email, 0);
    assert OccursAt("a1b", u.user_id, 0);
    assert OccursAt("2c3", u.user_id, 3);
  }

  /** Patterns that occur in neither field do not match; matching does not fold letter case. */
  lemma {:induction false} NoMatchExample()
    ensures !Matches(User("user@email.test", "a1b2c3", None, None), "zzz")
    ensures !Matches(User("user@email.test", "a1b2c3", None, None), "USER")
  {
    var u := User("user@email.test", "a1b2c3", None, None);
    AbsentFirstCharNoMatch(u, "zzz");
    AbsentFirstCharNoMatch(u, "USER");
  }
}
