/** Text helpers standing in for the PHP built-ins the CORS engine relies on:
    ASCII case mapping (`strtolower`, `strtoupper`), `trim`, `explode`, `implode`,
    decimal conversion of integers, and the anchored wildcard match that
    `preg_quote` + `str_replace('\*', '.*')` + `preg_match('/^...$/')` performs. */
module Text {

  datatype Option<+T> = None | Some(value: T)

  // ---------------------------------------------------------------------------
  // ASCII case mapping (PHP's strtolower / strtoupper are byte-wise and ASCII only)

  function LowerChar(c: char): char
  {
    if 'A' <= c <= 'Z' then (c as int + 32) as char else c
  }

  function UpperChar(c: char): char
  {
    if 'a' <= c <= 'z' then (c as int - 32) as char else c
  }

  function ToLower(s: string): (r: string)
    ensures |r| == |s|
    ensures forall i :: 0 <= i < |s| ==> r[i] == LowerChar(s[i])
  {
    seq(|s|, i requires 0 <= i < |s| => LowerChar(s[i]))
  }

  function ToUpper(s: string): (r: string)
    ensures |r| == |s|
    ensures forall i :: 0 <= i < |s| ==> r[i] == UpperChar(s[i])
  {
    seq(|s|, i requires 0 <= i < |s| => UpperChar(s[i]))
  }

  /** Lower-casing twice is lower-casing once. */
  lemma ToLowerIdempotent(s: string)
    ensures ToLower(ToLower(s)) == ToLower(s)
  {
    var once := ToLower(s);
    forall i | 0 <= i < |s| ensures ToLower(once)[i] == once[i] {
      assert LowerChar(LowerChar(s[i])) == LowerChar(s[i]);
    }
  }

  /** Lower-casing works character by character, so it distributes over
      concatenation. */
  lemma ToLowerConcat(a: string, b: string)
    ensures ToLower(a + b) == ToLower(a) + ToLower(b)
  {
    assert forall i :: 0 <= i < |a + b| ==> (a + b)[i] == if i < |a| then a[i] else b[i - |a|];
  }

  /** Lower-casing leaves `*` where it is and creates no new one. */
  lemma ToLowerStar(s: string)
    ensures '*' in s <==> '*' in ToLower(s)
    ensures s == "*" <==> ToLower(s) == "*"
    ensures s == "" <==> ToLower(s) == ""
  {
    if '*' in s {
      var i :| 0 <= i < |s| && s[i] == '*';
      assert ToLower(s)[i] == '*';
    }
    if '*' in ToLower(s) {
      var i :| 0 <= i < |s| && ToLower(s)[i] == '*';
      assert s[i] == '*';
    }
    if ToLower(s) == "*" {
      assert LowerChar(s[0]) == '*';
    }
  }

  // ---------------------------------------------------------------------------
  // trim: PHP strips " \t\n\r\0\x0B" from both ends

  predicate IsTrimmable(c: char)
  {
    c == ' ' || c == '\t' || c == '\n' || c == '\r' || c == '\0' || c == 11 as char
  }

  function TrimLeft(s: string): string
  {
    if s != [] && IsTrimmable(s[0]) then TrimLeft(s[1..]) else s
  }

  function TrimRight(s: string): string
  {
    if s != [] && IsTrimmable(s[|s| - 1]) then TrimRight(s[..|s| - 1]) else s
  }

  function Trim(s: string): string
  {
    TrimRight(TrimLeft(s))
  }

  /** Neither end of `s` is a character `trim` would strip. */
  predicate IsTrimmed(s: string)
  {
    s == [] || (!IsTrimmable(s[0]) && !IsTrimmable(s[|s| - 1]))
  }

  lemma {:induction false} TrimLeftKeepsEnd(s: string)
    requires s != [] && !IsTrimmable(s[|s| - 1])
    ensures TrimLeft(s) != [] && TrimLeft(s)[|TrimLeft(s)| - 1] == s[|s| - 1]
    ensures !IsTrimmable(TrimLeft(s)[0])
  {
    if IsTrimmable(s[0]) {
      TrimLeftKeepsEnd(s[1..]);
    }
  }

  lemma {:induction false} TrimRightKeepsStart(s: string)
    requires s == [] || !IsTrimmable(s[0])
    ensures TrimRight(s) == [] || (!IsTrimmable(TrimRight(s)[0]) && !IsTrimmable(TrimRight(s)[|TrimRight(s)| - 1]))
  {
    if s != [] && IsTrimmable(s[|s| - 1]) {
      var t := s[..|s| - 1];
      assert t == [] || t[0] == s[0];
      TrimRightKeepsStart(t);
    }
  }

  lemma {:induction false} TrimLeftStartsClean(s: string)
    ensures TrimLeft(s) == [] || !IsTrimmable(TrimLeft(s)[0])
  {
    if s != [] && IsTrimmable(s[0]) {
      TrimLeftStartsClean(s[1..]);
    }
  }

  /** Whatever `trim` returns has nothing left to trim. */
  lemma TrimIsTrimmed(s: string)
    ensures IsTrimmed(Trim(s))
  {
    TrimLeftStartsClean(s);
    TrimRightKeepsStart(TrimLeft(s));
  }

  /** `trim` leaves a trimmed string alone. */
  lemma TrimOfTrimmed(s: string)
    requires IsTrimmed(s)
    ensures Trim(s) == s
  {
  }

  /** `trim` is idempotent. */
  lemma TrimIdempotent(s: string)
    ensures Trim(Trim(s)) == Trim(s)
  {
    TrimIsTrimmed(s);
    TrimOfTrimmed(Trim(s));
  }

  // ---------------------------------------------------------------------------
  // explode / implode

  /** PHP `explode(sep, s)`: the pieces between separators; `explode` of the empty
      string is `['']`, so there is always at least one piece. */
  function Split(s: string, sep: char): (r: seq<string>)
    ensures |r| >= 1
    ensures forall i :: 0 <= i < |r| ==> sep !in r[i]
  {
    if s == [] then [""]
    else
      var rest := Split(s[1..], sep);
      if s[0] == sep then [""] + rest else [[s[0]] + rest[0]] + rest[1..]
  }

  /** PHP `implode(sep, xs)`. */
  function Join(xs: seq<string>, sep: string): string
  {
    if |xs| == 0 then "" else if |xs| == 1 then xs[0] else xs[0] + sep + Join(xs[1..], sep)
  }

  /** `array_map('trim', xs)`. */
  function TrimAll(xs: seq<string>): (r: seq<string>)
    ensures |r| == |xs|
    ensures forall i :: 0 <= i < |xs| ==> r[i] == Trim(xs[i])
  {
    seq(|xs|, i requires 0 <= i < |xs| => Trim(xs[i]))
  }

  /** `array_map('trim', explode(',', s))`: the comma-separated pieces of `s`. */
  function Pieces(s: string): seq<string>
  {
    TrimAll(Split(s, ','))
  }

  /** `implode(', ', array_map('trim', explode(',', s)))`: the list normalised to
      comma-space separators. */
  function CommaList(s: string): string
  {
    Join(Pieces(s), ", ")
  }

  lemma {:induction false} SplitPrefix(a: string, b: string, sep: char)
    requires sep !in a
    ensures Split(a + b, sep) == [a + Split(b, sep)[0]] + Split(b, sep)[1..]
  {
    var sb := Split(b, sep);
    if a != [] {
      assert a[0] != sep && sep !in a[1..] by {
        assert a == [a[0]] + a[1..];
      }
      assert (a + b)[0] == a[0] && (a + b)[1..] == a[1..] + b;
      SplitPrefix(a[1..], b, sep);
      var r := Split(a[1..] + b, sep);
      assert Split(a + b, sep) == [[a[0]] + r[0]] + r[1..];
      assert [a[0]] + (a[1..] + sb[0]) == a + sb[0];
    } else {
      assert a + b == b && a + sb[0] == sb[0];
      assert sb == [sb[0]] + sb[1..];
    }
  }

  lemma SplitAtSeparator(a: string, b: string, sep: char)
    requires sep !in a
    ensures Split(a + [sep] + b, sep) == [a] + Split(b, sep)
  {
    SplitPrefix(a, [sep] + b, sep);
    assert a + [sep] + b == a + ([sep] + b);
    assert ([sep] + b)[0] == sep && ([sep] + b)[1..] == b;
    assert Split([sep] + b, sep) == [""] + Split(b, sep);
    assert a + "" == a;
  }

  /** Every element with a space in front. */
  function Spaced(xs: seq<string>): (r: seq<string>)
    ensures |r| == |xs|
    ensures forall i :: 0 <= i < |xs| ==> r[i] == " " + xs[i]
  {
    if xs == [] then [] else [" " + xs[0]] + Spaced(xs[1..])
  }

  /** Exploding a comma-space joined list gives back the pieces, every one but the
      first carrying the space of the separator. */
  lemma {:induction false} SplitCommaSpaceJoin(xs: seq<string>)
    requires |xs| >= 1
    requires forall i :: 0 <= i < |xs| ==> ',' !in xs[i]
    ensures Split(Join(xs, ", "), ',') == [xs[0]] + Spaced(xs[1..])
  {
    if |xs| == 1 {
      SplitPrefix(xs[0], "", ',');
      assert xs[0] + "" == xs[0];
      assert xs[1..] == [];
    } else {
      var t := xs[1..];
      var tail := Join(t, ", ");
      SplitCommaSpaceJoin(t);
      assert Join(xs, ", ") == xs[0] + [','] + ([' '] + tail);
      SplitAtSeparator(xs[0], [' '] + tail, ',');
      SplitPrefix([' '], tail, ',');
      assert t[1..] == xs[2..];
      assert Spaced(t) == [" " + t[0]] + Spaced(t[1..]);
    }
  }

  lemma TrimSpacePrefix(s: string)
    requires IsTrimmed(s)
    ensures Trim(" " + s) == s
  {
    assert (" " + s)[1..] == s;
    assert TrimLeft(" " + s) == TrimLeft(s);
  }

  /** Cutting a comma-space joined list of clean pieces gives the pieces back. */
  lemma PiecesOfJoin(xs: seq<string>)
    requires |xs| >= 1
    requires forall i :: 0 <= i < |xs| ==> ',' !in xs[i] && IsTrimmed(xs[i])
    ensures Pieces(Join(xs, ", ")) == xs
  {
    SplitCommaSpaceJoin(xs);
    var again := Split(Join(xs, ", "), ',');
    forall i | 0 <= i < |xs| ensures Trim(again[i]) == xs[i] {
      if i == 0 {
        TrimOfTrimmed(xs[0]);
      } else {
        assert again[i] == Spaced(xs[1..])[i - 1] == " " + xs[i];
        TrimSpacePrefix(xs[i]);
      }
    }
  }

  /** Normalising a comma list keeps its pieces: exploding the normalised string
      gives back the trimmed pieces of the original. */
  lemma PiecesOfCommaList(s: string)
    ensures Pieces(CommaList(s)) == Pieces(s)
  {
    var ps := Pieces(s);
    var parts := Split(s, ',');
    forall i | 0 <= i < |ps| ensures ',' !in ps[i] && IsTrimmed(ps[i]) {
      TrimIsTrimmed(parts[i]);
      TrimSubstring(parts[i], ',');
    }
    PiecesOfJoin(ps);
  }

  /** Normalising a comma list is idempotent: `'hello, my,honey'` and the
      `'hello, my, honey'` it becomes normalise to the same string. */
  lemma CommaListIdempotent(s: string)
    ensures CommaList(CommaList(s)) == CommaList(s)
  {
    PiecesOfCommaList(s);
  }

  /** `explode` yields a single piece exactly when there is no separator. */
  lemma {:induction false} SplitSingle(s: string, sep: char)
    ensures |Split(s, sep)| == 1 <==> sep !in s
    ensures sep !in s ==> Split(s, sep) == [s]
  {
    if s != [] {
      SplitSingle(s[1..], sep);
      assert s == [s[0]] + s[1..];
    }
  }

  lemma {:induction false} TrimLeftSubstring(s: string, c: char)
    requires c !in s
    ensures c !in TrimLeft(s)
  {
    if s != [] && IsTrimmable(s[0]) {
      TrimLeftSubstring(s[1..], c);
    }
  }

  lemma {:induction false} TrimRightSubstring(s: string, c: char)
    requires c !in s
    ensures c !in TrimRight(s)
  {
    if s != [] && IsTrimmable(s[|s| - 1]) {
      TrimRightSubstring(s[..|s| - 1], c);
    }
  }

  /** `trim` only removes characters, so it cannot introduce `c`. */
  lemma TrimSubstring(s: string, c: char)
    requires c !in s
    ensures c !in Trim(s)
  {
    TrimLeftSubstring(s, c);
    TrimRightSubstring(TrimLeft(s), c);
  }

  /** A string without separators and without trimmable ends is its own comma list. */
  lemma CommaListOfPlain(s: string)
    requires ',' !in s && IsTrimmed(s)
    ensures Pieces(s) == [s]
    ensures CommaList(s) == s
  {
    SplitPrefix(s, "", ',');
    assert s + "" == s;
    TrimOfTrimmed(s);
  }

  // ---------------------------------------------------------------------------
  // Decimal conversion: PHP `(string)$int` and `(int)$numericString`

  predicate IsDigit(c: char)
  {
    '0' <= c <= '9'
  }

  function DigitChar(d: nat): char
    requires d < 10
  {
    ('0' as int + d) as char
  }

  function NatToString(n: nat): (r: string)
    ensures |r| >= 1
    ensures forall i :: 0 <= i < |r| ==> IsDigit(r[i])
  {
    if n < 10 then [DigitChar(n)] else NatToString(n / 10) + [DigitChar(n % 10)]
  }

  function IntToString(i: int): string
  {
    if i < 0 then "-" + NatToString(-i) else NatToString(i)
  }

  function DigitsValue(s: string): nat
    requires forall i :: 0 <= i < |s| ==> IsDigit(s[i])
  {
    if s == [] then 0
    else
      var last := s[|s| - 1];
      assert IsDigit(last);
      DigitsValue(s[..|s| - 1]) * 10 + (last as int - '0' as int)
  }

  /** A non-empty run of decimal digits, read as a number. */
  function ParseNat(s: string): Option<nat>
  {
    if s != [] && forall i :: 0 <= i < |s| ==> IsDigit(s[i]) then Some(DigitsValue(s)) else None
  }

  /** An optionally negative decimal integer. */
  function ParseInt(s: string): Option<int>
  {
    if s != [] && s[0] == '-' then
      match ParseNat(s[1..])
      case Some(n) => Some(-(n as int))
      case None => None
    else
      match ParseNat(s)
      case Some(n) => Some(n as int)
      case None => None
  }

  lemma {:induction false} DigitsValueOfNat(n: nat)
    ensures DigitsValue(NatToString(n)) == n
  {
    if n >= 10 {
      var s := NatToString(n);
      DigitsValueOfNat(n / 10);
      assert s[..|s| - 1] == NatToString(n / 10);
    }
  }

  /** Reading back the decimal form of a natural number gives the number. */
  lemma NatRoundTrip(n: nat)
    ensures ParseNat(NatToString(n)) == Some(n)
  {
    DigitsValueOfNat(n);
  }

  /** Reading back the decimal form of an integer gives the integer. */
  lemma IntRoundTrip(i: int)
    ensures ParseInt(IntToString(i)) == Some(i)
  {
    if i < 0 {
      var s := IntToString(i);
      assert s[1..] == NatToString(-i);
      NatRoundTrip(-i);
    } else {
      NatRoundTrip(i);
    }
  }

  /** The decimal form of an integer has no separator and nothing to trim. */
  lemma IntToStringPlain(i: int)
    ensures ',' !in IntToString(i) && IsTrimmed(IntToString(i))
  {
    var s := IntToString(i);
    var digits := NatToString(if i < 0 then -i else i);
    assert IsDigit(digits[0]) && IsDigit(digits[|digits| - 1]);
    if i < 0 {
      assert s == "-" + digits;
      assert s[|s| - 1] == digits[|digits| - 1];
      assert forall k :: 1 <= k < |s| ==> s[k] == digits[k - 1];
    }
  }

  // ---------------------------------------------------------------------------
  // Wildcard match: an anchored pattern in which every '*' stands for any run of
  // characters (the empty one included) and every other character for itself.

  function Glob(p: string, s: string): bool
    decreases |p| + |s|
  {
    if p == [] then s == []
    else if p[0] == '*' then Glob(p[1..], s) || (s != [] && Glob(p, s[1..]))
    else s != [] && p[0] == s[0] && Glob(p[1..], s[1..])
  }

  /** Without a '*' the pattern matches exactly itself. */
  lemma {:induction false} GlobLiteral(p: string, s: string)
    requires '*' !in p
    ensures Glob(p, s) <==> p == s
  {
    if p != [] && s != [] {
      assert '*' !in p[1..];
      GlobLiteral(p[1..], s[1..]);
      if p == s {
        assert p[1..] == s[1..];
      }
      if p[0] == s[0] && p[1..] == s[1..] {
        assert p == [p[0]] + p[1..] && s == [s[0]] + s[1..];
      }
    }
  }

  /** A leading '*' matches exactly when the rest of the pattern matches some
      suffix of the text. */
  lemma {:induction false} GlobStar(p: string, s: string)
    ensures Glob("*" + p, s) <==> exists k :: 0 <= k <= |s| && Glob(p, s[k..])
    decreases |s|
  {
    var sp := "*" + p;
    assert sp[1..] == p;
    if Glob(sp, s) {
      if !Glob(p, s) {
        GlobStar(p, s[1..]);
        var k :| 0 <= k <= |s[1..]| && Glob(p, s[1..][k..]);
        assert s[1..][k..] == s[k + 1..];
      } else {
        assert s[0..] == s;
      }
    }
    if exists k :: 0 <= k <= |s| && Glob(p, s[k..]) {
      var k :| 0 <= k <= |s| && Glob(p, s[k..]);
      if k == 0 {
        assert s[0..] == s;
      } else {
        assert s[1..][k - 1..] == s[k..];
        GlobStar(p, s[1..]);
      }
    }
  }

  /** Matching is compositional: a match of each half is a match of the whole. */
  lemma {:induction false} GlobConcat(p1: string, s1: string, p2: string, s2: string)
    requires Glob(p1, s1) && Glob(p2, s2)
    ensures Glob(p1 + p2, s1 + s2)
    decreases |p1| + |s1|
  {
    if p1 == [] {
      assert p1 + p2 == p2 && s1 + s2 == s2;
    } else if p1[0] == '*' {
      assert (p1 + p2)[0] == '*' && (p1 + p2)[1..] == p1[1..] + p2;
      if Glob(p1[1..], s1) {
        GlobConcat(p1[1..], s1, p2, s2);
      } else {
        GlobConcat(p1, s1[1..], p2, s2);
        assert (s1 + s2)[1..] == s1[1..] + s2;
      }
    } else {
      GlobConcat(p1[1..], s1[1..], p2, s2);
      assert (p1 + p2)[1..] == p1[1..] + p2;
      assert (s1 + s2)[1..] == s1[1..] + s2;
    }
  }

  /** A leading `*` followed by literal text accepts exactly the strings that end
      with that text. */
  lemma LeadingStar(p: string, s: string)
    requires '*' !in p
    ensures Glob("*" + p, s) <==> |p| <= |s| && s[|s| - |p|..] == p
  {
    GlobStar(p, s);
    if Glob("*" + p, s) {
      var k :| 0 <= k <= |s| && Glob(p, s[k..]);
      GlobLiteral(p, s[k..]);
    }
    if |p| <= |s| && s[|s| - |p|..] == p {
      GlobLiteral(p, s[|s| - |p|..]);
    }
    forall k | 0 <= k <= |s| ensures Glob(p, s[k..]) <==> p == s[k..] {
      GlobLiteral(p, s[k..]);
    }
  }

  /** Splitting three separator-free pieces joined by the separator gives them back. */
  lemma SplitThree(a: string, b: string, c: string, sep: char)
    requires sep !in a && sep !in b && sep !in c
    ensures Split(a + [sep] + b + [sep] + c, sep) == [a, b, c]
  {
    assert a + [sep] + b + [sep] + c == a + [sep] + (b + [sep] + c);
    SplitAtSeparator(a, b + [sep] + c, sep);
    SplitAtSeparator(b, c, sep);
    SplitSingle(c, sep);
  }
}
