/** The client-side sign-in: the fixed credential pair the dashboard
    accepts and the login form's required-field check on the trimmed
    username. */
module Auth {
  import opened Records

  /** `login`'s check: exactly the username "adm1n" with the password "1234". */
  predicate ValidCredentials(username: string, password: string)
    ensures ValidCredentials(username, password) ==>
      username != [] && password != [] && !IsWhitespace(username[0])
  {
    username == "adm1n" && password == "1234"
  }

  /** The characters `String.prototype.trim` removes: ECMAScript's
      WhiteSpace (tab, vertical tab, form feed, the byte-order mark and the
      Unicode space separators) and LineTerminator. */
  predicate IsWhitespace(c: char) {
    c == '\t' || c == '\U{000B}' || c == '\U{000C}' || c == ' ' || c == '\U{00A0}'
    || c == '\U{FEFF}' || c == '\U{1680}' || ('\U{2000}' <= c <= '\U{200A}')
    || c == '\U{202F}' || c == '\U{205F}' || c == '\U{3000}'
    || c == '\n' || c == '\r' || c == '\U{2028}' || c == '\U{2029}'
  }

  /** `s` without its leading whitespace. */
  function TrimStart(s: string): (r: string)
    ensures |r| <= |s| && r == s[|s| - |r|..]
    ensures forall i :: 0 <= i < |s| - |r| ==> IsWhitespace(s[i])
    ensures r != [] ==> !IsWhitespace(r[0])
  {
    if s != [] && IsWhitespace(s[0]) then TrimStart(s[1..]) else s
  }

  /** `s` without its trailing whitespace. */
  function TrimEnd(s: string): (r: string)
    ensures r <= s
    ensures forall i :: |r| <= i < |s| ==> IsWhitespace(s[i])
    ensures r != [] ==> !IsWhitespace(r[|r| - 1])
  {
    if s != [] && IsWhitespace(s[|s| - 1]) then TrimEnd(s[..|s| - 1]) else s
  }

  /** `r` is `s[a..b]` and everything of `s` outside `a..b` is whitespace. */
  predicate PaddedSlice(s: string, r: string, a: int, b: int) {
    0 <= a <= b <= |s| && r == s[a..b] &&
    (forall i :: 0 <= i < a ==> IsWhitespace(s[i])) &&
    (forall i :: b <= i < |s| ==> IsWhitespace(s[i]))
  }

  /** Whitespace at the end of a suffix of `s` is whitespace at the end of `s`. */
  lemma SuffixTail(s: string, t: string, k: nat)
    requires |t| <= |s| && t == s[|s| - |t|..] && k <= |t|
    requires forall j :: k <= j < |t| ==> IsWhitespace(t[j])
    ensures forall i :: |s| - |t| + k <= i < |s| ==> IsWhitespace(s[i])
  {
    forall i | |s| - |t| + k <= i < |s| ensures IsWhitespace(s[i]) {
      assert s[i] == t[i - (|s| - |t|)];
    }
  }

  /** A prefix of a suffix of `s` is a slice of `s`. */
  lemma PrefixOfSuffix(s: string, t: string, r: string)
    requires |t| <= |s| && t == s[|s| - |t|..] && r <= t
    ensures r == s[|s| - |t|..|s| - |t| + |r|]
  {
    assert r == t[..|r|];
  }

  /** Trimming the start and then the end keeps a slice of `s` with only
      whitespace outside it. */
  lemma TrimmedIsPaddedSlice(s: string)
    ensures var t := TrimStart(s);
      PaddedSlice(s, TrimEnd(t), |s| - |t|, |s| - |t| + |TrimEnd(t)|)
  {
    var t := TrimStart(s);
    var r := TrimEnd(t);
    var a := |s| - |t|;
    PrefixOfSuffix(s, t, r);
    SuffixTail(s, t, |r|);
  }

  /** `s.trim()`: the slice of `s` left once the whitespace at each end is
      dropped, with no whitespace at either end. */
  function Trim(s: string): (r: string)
    ensures |r| <= |s|
    ensures exists a, b :: PaddedSlice(s, r, a, b)
    ensures r != [] ==> !IsWhitespace(r[0]) && !IsWhitespace(r[|r| - 1])
  {
    TrimmedIsPaddedSlice(s);
    TrimEnd(TrimStart(s))
  }

  /** A username is blank after trimming exactly when it is all whitespace. */
  lemma TrimBlankIff(s: string)
    ensures Trim(s) == [] <==> forall i :: 0 <= i < |s| ==> IsWhitespace(s[i])
  {
  }

  /** Trimming a trimmed string changes nothing. */
  lemma TrimIdempotent(s: string)
    ensures Trim(Trim(s)) == Trim(s)
  {
    var t := Trim(s);
    if t != [] {
      assert TrimStart(t) == t;
      assert TrimEnd(t) == t;
    }
  }

  /** What a submit of the login form ends in. */
  datatype LoginOutcome = MissingFields | InvalidCredentials | SignedIn

  /** The form's submit handler: a blank trimmed username or an empty
      password is refused before `login` is called; otherwise `login` is
      called with the trimmed username. */
  function SubmitOutcome(username: string, password: string): (o: LoginOutcome)
    ensures o == MissingFields <==> Trim(username) == [] || password == []
    ensures o == SignedIn ==> ValidCredentials(Trim(username), password)
  {
    if Trim(username) == [] || password == [] then MissingFields
    else if ValidCredentials(Trim(username), password) then SignedIn
    else InvalidCredentials
  }

  /** The form signs in exactly when the trimmed username is "adm1n" and
      the password is "1234"; it reports missing fields exactly when the
      username is all whitespace or the password empty. */
  lemma SubmitOutcomeIff(username: string, password: string)
    ensures SubmitOutcome(username, password) == SignedIn <==>
      Trim(username) == "adm1n" && password == "1234"
    ensures SubmitOutcome(username, password) == MissingFields <==>
      (forall i :: 0 <= i < |username| ==> IsWhitespace(username[i])) || password == []
  {
  }

  /** Stripping a run of leading whitespace stops at the first other character. */
  lemma {:induction false} TrimStartPadding(a: string, m: string)
    requires forall i :: 0 <= i < |a| ==> IsWhitespace(a[i])
    requires m != [] && !IsWhitespace(m[0])
    ensures TrimStart(a + m) == m
  {
    if a != [] {
      assert (a + m)[0] == a[0];
      assert (a + m)[1..] == a[1..] + m;
      TrimStartPadding(a[1..], m);
    } else {
      assert a + m == m;
    }
  }

  /** Stripping a run of trailing whitespace stops at the last other character. */
  lemma {:induction false} TrimEndPadding(m: string, b: string)
    requires forall i :: 0 <= i < |b| ==> IsWhitespace(b[i])
    requires m != [] && !IsWhitespace(m[|m| - 1])
    ensures TrimEnd(m + b) == m
  {
    if b != [] {
      var c := m + b;
      assert c[|c| - 1] == b[|b| - 1];
      assert c[..|c| - 1] == m + b[..|b| - 1];
      TrimEndPadding(m, b[..|b| - 1]);
    } else {
      assert m + b == m;
    }
  }

  /** Because the form trims, any whitespace around "adm1n" still signs in. */
  lemma PaddedUsernameSignsIn(before: string, after: string)
    requires forall i :: 0 <= i < |before| ==> IsWhitespace(before[i])
    requires forall i :: 0 <= i < |after| ==> IsWhitespace(after[i])
    ensures SubmitOutcome(before + "adm1n" + after, "1234") == SignedIn
  {
    var name := "adm1n";
    assert !IsWhitespace(name[0]) && !IsWhitespace(name[|name| - 1]);
    assert before + name + after == before + (name + after);
    TrimStartPadding(before, name + after);
    TrimEndPadding(name, after);
  }
}
