/** The .NET string operations the core relies on: `Split` on a set of separator
    characters, `string.Join`, and the split/join idiom that replaces characters. */
module Text {

  /** No character of `s` is in `cs`. */
  predicate NoneOf(s: string, cs: set<char>) {
    forall j :: 0 <= j < |s| ==> s[j] !in cs
  }

  /** `s.Split(seps)`: the pieces between separators, empty pieces kept, so a
      string with n separators has n + 1 pieces and "" splits into [""]. */
  function Split(s: string, seps: set<char>): (r: seq<string>)
    ensures |r| >= 1
  {
    if s == [] then [[]]
    else if s[0] in seps then [[]] + Split(s[1..], seps)
    else
      var rest := Split(s[1..], seps);
      [[s[0]] + rest[0]] + rest[1..]
  }

  /** No piece holds a separator. */
  lemma {:induction false} SplitPieces(s: string, seps: set<char>)
    ensures forall i :: 0 <= i < |Split(s, seps)| ==> NoneOf(Split(s, seps)[i], seps)
  {
    if s != [] {
      SplitPieces(s[1..], seps);
    }
  }

  /** `string.Join(sep, parts)`. */
  function Join(parts: seq<string>, sep: string): string {
    if |parts| == 0 then []
    else if |parts| == 1 then parts[0]
    else parts[0] + sep + Join(parts[1..], sep)
  }

  /** `string.Join("_", s.Split(invalid))`: the sanitising step of the filename key. */
  function Sanitize(s: string, invalid: set<char>): string {
    Join(Split(s, invalid), "_")
  }

  /** The character that `Sanitize` leaves at the position of `c`. */
  function SanitizedChar(c: char, invalid: set<char>): char {
    if c in invalid then '_' else c
  }

  /** Joining the first piece on to the join of the rest. */
  lemma JoinCons(p: string, parts: seq<string>, sep: string)
    requires |parts| >= 1
    ensures Join([p] + parts, sep) == p + sep + Join(parts, sep)
  {
    assert ([p] + parts)[1..] == parts;
  }

  /** Sanitising a string is sanitising its first character, then the rest. */
  lemma SanitizeCons(s: string, invalid: set<char>)
    requires s != []
    ensures Sanitize(s, invalid) == [SanitizedChar(s[0], invalid)] + Sanitize(s[1..], invalid)
  {
    var tail := s[1..];
    var rest := Split(tail, invalid);
    if s[0] in invalid {
      JoinCons([], rest, "_");
    } else {
      var first := [s[0]] + rest[0];
      if |rest| > 1 {
        JoinCons(first, rest[1..], "_");
        JoinCons(rest[0], rest[1..], "_");
        assert [rest[0]] + rest[1..] == rest;
      }
    }
  }

  /** Split and join replace characters one for one: the result has the input's
      length, every invalid character becomes '_' and every other character stays
      where it was. */
  lemma {:induction false} SanitizeIsCharwise(s: string, invalid: set<char>)
    ensures |Sanitize(s, invalid)| == |s|
    ensures forall i :: 0 <= i < |s| ==> Sanitize(s, invalid)[i] == SanitizedChar(s[i], invalid)
  {
    if s != [] {
      var tail := s[1..];
      SanitizeIsCharwise(tail, invalid);
      SanitizeCons(s, invalid);
      var r := Sanitize(s, invalid);
      forall i | 0 <= i < |s|
        ensures r[i] == SanitizedChar(s[i], invalid)
      {
        if i > 0 {
          assert s[i] == tail[i - 1];
        }
      }
    }
  }

  /** When '_' is itself valid, the key holds no invalid character. */
  lemma SanitizeHasNoInvalid(s: string, invalid: set<char>)
    requires '_' !in invalid
    ensures NoneOf(Sanitize(s, invalid), invalid)
  {
    SanitizeIsCharwise(s, invalid);
  }

  /** When '_' is itself valid, sanitising twice is sanitising once. */
  lemma SanitizeIdempotent(s: string, invalid: set<char>)
    requires '_' !in invalid
    ensures Sanitize(Sanitize(s, invalid), invalid) == Sanitize(s, invalid)
  {
    var once := Sanitize(s, invalid);
    SanitizeIsCharwise(s, invalid);
    SanitizeIsCharwise(once, invalid);
  }

  /** A string with no separator is one piece. */
  lemma {:induction false} SplitWithoutSeparator(s: string, seps: set<char>)
    requires NoneOf(s, seps)
    ensures Split(s, seps) == [s]
  {
    if s != [] {
      SplitWithoutSeparator(s[1..], seps);
      assert [s[0]] + s[1..] == s;
    }
  }

  /** A separator between two strings splits them apart. */
  lemma {:induction false} SplitAtSeparator(a: string, x: char, b: string, seps: set<char>)
    requires x in seps
    ensures Split(a + [x] + b, seps) == Split(a, seps) + Split(b, seps)
  {
    var s := a + [x] + b;
    if a == [] {
      assert s[1..] == b;
    } else {
      assert s[0] == a[0];
      assert s[1..] == a[1..] + [x] + b;
      SplitAtSeparator(a[1..], x, b, seps);
      if a[0] !in seps {
        PrependToFirst(a[0], Split(a[1..], seps), Split(b, seps));
      }
    }
  }

  /** Prepending a character to the first piece commutes with appending pieces. */
  lemma PrependToFirst(c: char, p: seq<string>, q: seq<string>)
    requires |p| >= 1
    ensures [[c] + (p + q)[0]] + (p + q)[1..] == ([[c] + p[0]] + p[1..]) + q
  {
    assert (p + q)[1..] == p[1..] + q;
  }

  /** The decimal digits of `n`, as `int.ToString()` writes them. */
  function NatToString(n: nat): (r: string)
    ensures |r| >= 1
    ensures forall i :: 0 <= i < |r| ==> '0' <= r[i] <= '9'
  {
    var d := ['0' + (n % 10) as char];
    if n < 10 then d else NatToString(n / 10) + d
  }

  /** The number a string of decimal digits denotes. */
  function DigitsValue(s: string): nat
    requires forall i :: 0 <= i < |s| ==> '0' <= s[i] <= '9'
  {
    if s == [] then 0 else DigitsValue(s[..|s| - 1]) * 10 + (s[|s| - 1] - '0') as nat
  }

  /** The digits read back as the number written. */
  lemma {:induction false} NatToStringRoundTrip(n: nat)
    ensures DigitsValue(NatToString(n)) == n
  {
    var r := NatToString(n);
    var d := ['0' + (n % 10) as char];
    if n >= 10 {
      NatToStringRoundTrip(n / 10);
      assert r[..|r| - 1] == NatToString(n / 10);
    } else {
      assert r[..|r| - 1] == [];
    }
  }

  /** Different numbers are written differently. */
  lemma NatToStringInjective(m: nat, n: nat)
    requires NatToString(m) == NatToString(n)
    ensures m == n
  {
    NatToStringRoundTrip(m);
    NatToStringRoundTrip(n);
  }

  /** The part of `s` before the first `c` (all of `s` when there is none). */
  function UpTo(s: string, c: char): string {
    if s == [] || s[0] == c then [] else [s[0]] + UpTo(s[1..], c)
  }

  /** A string without `c`, followed by `c`, is read back up to that `c`. */
  lemma {:induction false} UpToFirst(a: string, c: char, b: string)
    requires c !in a
    ensures UpTo(a + [c] + b, c) == a
  {
    if a != [] {
      assert (a + [c] + b)[1..] == a[1..] + [c] + b;
      UpToFirst(a[1..], c, b);
    }
  }
}
