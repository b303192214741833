/**
 * The parts of `java.lang.String`, `Integer` and `AbstractCollection.toString`
 * that the modelled code relies on, written as functions over `seq<char>`.
 */
module JavaStrings {
  import opened Wrappers

  const IntMin: int := -0x8000_0000
  const IntMax: int := 0x7fff_ffff

  /** `s.startsWith(t)`. */
  predicate StartsWith(s: string, t: string) {
    |t| <= |s| && s[..|t|] == t
  }

  /** `s.endsWith(t)`. */
  predicate EndsWith(s: string, t: string) {
    |t| <= |s| && s[|s| - |t|..] == t
  }

  /** `t` occurs in `s` starting at index `i`. */
  predicate OccursAt(s: string, t: string, i: int) {
    0 <= i && i + |t| <= |s| && s[i..i + |t|] == t
  }

  /** `s.contains(t)`. */
  predicate Contains(s: string, t: string) {
    exists i | 0 <= i <= |s| - |t| :: OccursAt(s, t, i)
  }

  /** An occurrence inside `s` is still an occurrence once text is added on either side. */
  lemma ContainsInfix(a: string, s: string, b: string, t: string)
    requires Contains(s, t)
    ensures Contains(a + s + b, t)
  {
    var i :| 0 <= i <= |s| - |t| && OccursAt(s, t, i);
    var w := a + s + b;
    assert w[|a| + i..|a| + i + |t|] == s[i..i + |t|];
    assert OccursAt(w, t, |a| + i);
  }

  /** Every text contains itself. */
  lemma ContainsSelf(s: string)
    ensures Contains(s, s)
  {
    assert OccursAt(s, s, 0);
  }

  /** `s.indexOf(c)`: the first index of `c`, or -1. */
  function IndexOf(s: string, c: char): (r: int)
    ensures -1 <= r < |s|
    ensures r == -1 <==> c !in s
    ensures 0 <= r ==> s[r] == c && c !in s[..r]
  {
    if |s| == 0 then -1
    else if s[0] == c then 0
    else
      var k := IndexOf(s[1..], c);
      assert s[1..][..if k < 0 then 0 else k] == s[1..if k < 0 then 1 else k + 1];
      if k == -1 then -1 else k + 1
  }

  /** An occurrence of `c` with none before it is the one `indexOf` finds. */
  lemma {:induction false} IndexOfFirst(s: string, c: char, i: nat)
    requires i < |s| && s[i] == c
    requires forall k :: 0 <= k < i ==> s[k] != c
    ensures IndexOf(s, c) == i
  {
    if s[0] != c {
      assert forall k :: 0 <= k < i - 1 ==> s[1..][k] == s[k + 1];
      IndexOfFirst(s[1..], c, i - 1);
    }
  }

  /** The first `c` of `s + t` is the first of `s` when `s` has one. */
  lemma IndexOfAppendLeft(s: string, t: string, c: char, i: nat)
    requires i == IndexOf(s, c) && c in s
    ensures IndexOf(s + t, c) == i
  {
    assert forall k :: 0 <= k < i ==> (s + t)[k] == s[..i][k];
    IndexOfFirst(s + t, c, i);
  }

  /** Otherwise it is the first of `t`, shifted past `s`. */
  lemma IndexOfAppendRight(s: string, t: string, c: char, i: nat)
    requires c !in s && i < |t| && t[i] == c
    requires forall k :: 0 <= k < i ==> t[k] != c
    ensures IndexOf(s + t, c) == |s| + i
  {
    assert forall k :: 0 <= k < |s| + i ==> (s + t)[k] == if k < |s| then s[k] else t[k - |s|];
    IndexOfFirst(s + t, c, |s| + i);
  }




  /** `s.lastIndexOf(c)`: the last index of `c`, or -1. */
  function LastIndexOf(s: string, c: char): (r: int)
    ensures -1 <= r < |s|
    ensures r == -1 <==> c !in s
    ensures 0 <= r ==> s[r] == c && c !in s[r + 1..]
  {
    if |s| == 0 then -1
    else if s[|s| - 1] == c then |s| - 1
    else
      var k := LastIndexOf(s[..|s| - 1], c);
      assert 0 <= k ==> s[k + 1..] == s[..|s| - 1][k + 1..] + [s[|s| - 1]];
      k
  }

  /** `s.replace(a, b)` for characters. */
  function Replace(s: string, a: char, b: char): (r: string)
    ensures |r| == |s|
    ensures forall i :: 0 <= i < |s| ==> r[i] == (if s[i] == a then b else s[i])
  {
    seq(|s|, i requires 0 <= i < |s| => if s[i] == a then b else s[i])
  }

  /** The pieces of `s` between occurrences of `sep`, empty pieces included. */
  function Pieces(s: string, sep: char): (r: seq<string>)
    ensures |r| >= 1
    ensures forall k :: 0 <= k < |r| ==> sep !in r[k]
  {
    if sep !in s then [s]
    else
      var i := LastIndexOf(s, sep);
      Pieces(s[..i], sep) + [s[i + 1..]]
  }

  /** Drops the empty strings at the end of a list, as `String.split` does. */
  function DropTrailingEmpty(xs: seq<string>): (r: seq<string>)
    ensures |r| <= |xs| && r == xs[..|r|]
    ensures r != [] ==> r[|r| - 1] != ""
    ensures forall k :: |r| <= k < |xs| ==> xs[k] == ""
  {
    if xs != [] && xs[|xs| - 1] == "" then DropTrailingEmpty(xs[..|xs| - 1]) else xs
  }

  /**
   * `s.split(sep)` with a one-character literal pattern and limit 0: the input
   * itself when `sep` does not occur, otherwise the pieces with trailing empty
   * pieces removed (so the result may be empty).
   */
  function Split(s: string, sep: char): (r: seq<string>)
    ensures forall k :: 0 <= k < |r| ==> sep !in r[k]
    ensures sep !in s ==> r == [s]
    ensures sep in s && r != [] ==> r[|r| - 1] != ""
  {
    if sep !in s then [s] else DropTrailingEmpty(Pieces(s, sep))
  }

  /** `String.join(d, xs)`: the elements with `d` between neighbours. */
  function Intercalate(xs: seq<string>, d: string): string {
    if xs == [] then ""
    else if |xs| == 1 then xs[0]
    else xs[0] + d + Intercalate(xs[1..], d)
  }

  /** `list.toString()` of an `ArrayList<String>`: `[a, b, c]`. */
  function ListToString(xs: seq<string>): string {
    "[" + Intercalate(xs, ", ") + "]"
  }

  /** The text of a list is bracketed. */
  lemma ListToStringBrackets(xs: seq<string>)
    ensures StartsWith(ListToString(xs), "[") && EndsWith(ListToString(xs), "]")
  {
    var r := ListToString(xs);
    assert r[..1] == "[";
    assert r[|r| - 1..] == "]";
  }

  /** Appending one element to a non-empty list appends the delimiter and the element. */
  lemma {:induction false} IntercalateSnoc(xs: seq<string>, x: string, d: string)
    requires xs != []
    ensures Intercalate(xs + [x], d) == Intercalate(xs, d) + d + x
  {
    if |xs| > 1 {
      assert (xs + [x])[1..] == xs[1..] + [x];
      IntercalateSnoc(xs[1..], x, d);
    }
  }

  /** The trailing run of `c` removed from `s`. */
  function StripTrailing(s: string, c: char): (r: string)
    ensures |r| <= |s| && r == s[..|r|]
    ensures r != "" ==> r[|r| - 1] != c
    ensures forall k :: |r| <= k < |s| ==> s[k] == c
  {
    if s != "" && s[|s| - 1] == c then StripTrailing(s[..|s| - 1], c) else s
  }

  /** The last `c`-free segment of `s` once trailing `c`s are ignored. */
  function LastSegment(s: string, c: char): (r: string)
    ensures c !in r
  {
    var t := StripTrailing(s, c);
    t[LastIndexOf(t, c) + 1..]
  }

  /** Every character of `s` is `c` (vacuously so for the empty text). */
  predicate AllChar(s: string, c: char) {
    forall i :: 0 <= i < |s| ==> s[i] == c
  }

  lemma DropSnocEmpty(xs: seq<string>)
    ensures DropTrailingEmpty(xs + [""]) == DropTrailingEmpty(xs)
  {
    assert (xs + [""])[..|xs|] == xs;
  }

  /** What splitting on `c` leaves of `s`, stated against the last segment. */
  predicate SplitsToLastSegment(s: string, c: char) {
    var r := DropTrailingEmpty(Pieces(s, c));
    && (r == [] <==> AllChar(s, c))
    && (r != [] ==> r[|r| - 1] == LastSegment(s, c))
  }

  lemma TrailingSepStep(s: string, c: char)
    requires s != "" && s[|s| - 1] == c
    requires SplitsToLastSegment(s[..|s| - 1], c)
    ensures SplitsToLastSegment(s, c)
  {
    var p := s[..|s| - 1];
    PiecesTrailingSep(s, c);
    DropSnocEmpty(Pieces(p, c));
    StripTrailingSep(s, c);
    AllCharTrailing(s, c);
  }

  /** A trailing `c` changes nothing about whether the text is all `c`. */
  lemma AllCharTrailing(s: string, c: char)
    requires s != "" && s[|s| - 1] == c
    ensures AllChar(s, c) <==> AllChar(s[..|s| - 1], c)
  {
    var p := s[..|s| - 1];
    assert forall i :: 0 <= i < |p| ==> p[i] == s[i];
  }

  /** A trailing separator adds one empty piece. */
  lemma PiecesTrailingSep(s: string, c: char)
    requires s != "" && s[|s| - 1] == c
    ensures Pieces(s, c) == Pieces(s[..|s| - 1], c) + [""]
  {
    assert LastIndexOf(s, c) == |s| - 1;
  }

  lemma StripTrailingSep(s: string, c: char)
    requires s != "" && s[|s| - 1] == c
    ensures LastSegment(s, c) == LastSegment(s[..|s| - 1], c)
  {
    assert StripTrailing(s, c) == StripTrailing(s[..|s| - 1], c);
  }

  /** When `s` does not end in `c`, its last piece is the non-empty text after its last `c`. */
  lemma LastPieceUnterminated(s: string, c: char)
    requires s != "" && s[|s| - 1] != c
    ensures LastSegment(s, c) == s[LastIndexOf(s, c) + 1..] != ""
    ensures Pieces(s, c)[|Pieces(s, c)| - 1] == s[LastIndexOf(s, c) + 1..]
  {
    assert StripTrailing(s, c) == s;
  }

  lemma UnterminatedStep(s: string, c: char)
    requires s != "" && s[|s| - 1] != c
    ensures SplitsToLastSegment(s, c)
  {
    LastPieceUnterminated(s, c);
    assert !AllChar(s, c);
    var ps := Pieces(s, c);
    assert ps[|ps| - 1] != "";
    assert DropTrailingEmpty(ps) == ps;
  }

  /** Dropping the trailing empty pieces leaves nothing exactly when `s` is made of `c`s only; otherwise the last piece is the last segment. */
  lemma {:induction false} DropPiecesLast(s: string, c: char)
    ensures SplitsToLastSegment(s, c)
  {
    if s == "" {
      assert Pieces(s, c) == [""];
    } else if s[|s| - 1] == c {
      DropPiecesLast(s[..|s| - 1], c);
      TrailingSepStep(s, c);
    } else {
      UnterminatedStep(s, c);
    }
  }

  /** Splitting a joined list of `c`-free pieces at `c` gives the pieces back. */
  lemma {:induction false} PiecesOfIntercalate(segs: seq<string>, c: char)
    requires segs != []
    requires forall k :: 0 <= k < |segs| ==> c !in segs[k]
    ensures Pieces(Intercalate(segs, [c]), c) == segs
  {
    if |segs| > 1 {
      var init, last := segs[..|segs| - 1], segs[|segs| - 1];
      assert init + [last] == segs;
      IntercalateSnoc(init, last, [c]);
      var front := Intercalate(init, [c]);
      var s := front + [c] + last;
      assert s[|front|] == c;
      assert s[|front| + 1..] == last;
      var i := LastIndexOf(s, c);
      assert i == |front|;
      assert s[..i] == front;
      PiecesOfIntercalate(init, c);
    }
  }

  /** `split` undoes joining with `c` when no piece contains `c` and the last piece is not empty. */
  lemma SplitOfIntercalate(segs: seq<string>, c: char)
    requires segs != [] && segs[|segs| - 1] != ""
    requires forall k :: 0 <= k < |segs| ==> c !in segs[k]
    ensures Split(Intercalate(segs, [c]), c) == segs
  {
    PiecesOfIntercalate(segs, c);
    if |segs| > 1 {
      IntercalateSnoc(segs[..|segs| - 1], segs[|segs| - 1], [c]);
      assert segs[..|segs| - 1] + [segs[|segs| - 1]] == segs;
      assert c in Intercalate(segs, [c]);
    }
  }

  /** Every element of an intercalated list occurs in the joined text. */
  lemma {:induction false} IntercalateContains(xs: seq<string>, d: string, k: int)
    requires 0 <= k < |xs|
    ensures Contains(Intercalate(xs, d), xs[k])
  {
    if |xs| == 1 {
      ContainsSelf(xs[0]);
    } else if k == 0 {
      ContainsSelf(xs[0]);
      ContainsInfix("", xs[0], d + Intercalate(xs[1..], d), xs[0]);
      assert "" + xs[0] + (d + Intercalate(xs[1..], d)) == Intercalate(xs, d);
    } else {
      IntercalateContains(xs[1..], d, k - 1);
      ContainsInfix(xs[0] + d, Intercalate(xs[1..], d), "", xs[k]);
      assert xs[0] + d + Intercalate(xs[1..], d) + "" == Intercalate(xs, d);
    }
  }

  /** Every element of a list occurs in the list's `toString` text. */
  lemma ListToStringContains(xs: seq<string>, x: string)
    requires x in xs
    ensures Contains(ListToString(xs), x)
  {
    var k :| 0 <= k < |xs| && xs[k] == x;
    IntercalateContains(xs, ", ", k);
    ContainsInfix("[", Intercalate(xs, ", "), "]", x);
  }

  predicate IsDigit(c: char) {
    '0' <= c <= '9'
  }

  predicate AllDigits(s: string) {
    forall i :: 0 <= i < |s| ==> IsDigit(s[i])
  }

  function DigitChar(d: nat): (c: char)
    requires d < 10
    ensures IsDigit(c) && c as int - '0' as int == d
  {
    ('0' as int + d) as char
  }

  /** The decimal digits of `n`, most significant first, without leading zeros. */
  function NatToString(n: nat): (r: string)
    ensures |r| >= 1
  {
    if n < 10 then [DigitChar(n)] else NatToString(n / 10) + [DigitChar(n % 10)]
  }

  /** Only digits, so no sign. */
  lemma {:induction false} NatToStringDigits(n: nat)
    ensures AllDigits(NatToString(n)) && '-' !in NatToString(n)
  {
    if n >= 10 {
      NatToStringDigits(n / 10);
    }
  }

  /** `Integer.toString(n)`, as used when Java concatenates an int onto a string. */
  function IntToString(n: int): string
  {
    if n < 0 then "-" + NatToString(-n) else NatToString(n)
  }

  /** The value of a non-empty run of decimal digits. */
  function DigitsValue(s: string): nat
    requires AllDigits(s)
  {
    if s == [] then 0 else DigitsValue(s[..|s| - 1]) * 10 + (s[|s| - 1] as int - '0' as int)
  }

  /**
   * `Integer.valueOf(s)` restricted to ASCII digits: an optional sign, at least
   * one digit, and a value within the 32-bit range; otherwise `NumberFormatException`.
   */
  function ParseInt(s: string): (r: Result<int>)
    ensures r.Ok? ==> IntMin <= r.value <= IntMax
    ensures r.Thrown? ==> r.exception == NumberFormat
    ensures s == "" ==> r.Thrown?
  {
    if |s| == 0 then Thrown(NumberFormat)
    else
      var start := if s[0] == '-' || s[0] == '+' then 1 else 0;
      var digits := s[start..];
      if |digits| == 0 || !AllDigits(digits) then Thrown(NumberFormat)
      else
        var magnitude: int := DigitsValue(digits);
        var v := if s[0] == '-' then -magnitude else magnitude;
        if IntMin <= v <= IntMax then Ok(v) else Thrown(NumberFormat)
  }

  lemma {:induction false} DigitsOfNat(n: nat)
    ensures AllDigits(NatToString(n)) && '-' !in NatToString(n)
    ensures DigitsValue(NatToString(n)) == n
  {
    NatToStringDigits(n);
    var r := NatToString(n);
    if n >= 10 {
      DigitsOfNat(n / 10);
      assert r[..|r| - 1] == NatToString(n / 10);
    }
  }

  /** Reading back what `Integer.toString` wrote gives the same 32-bit value. */
  lemma IntToStringRoundTrip(n: int)
    requires IntMin <= n <= IntMax
    ensures ParseInt(IntToString(n)) == Ok(n)
  {
    if n < 0 {
      NegativeRoundTrip(n);
    } else {
      var s := NatToString(n);
      DigitsOfNat(n);
      assert s[0] != '-' && s[0] != '+';
      assert s[0..] == s;
    }
  }

  lemma NegativeRoundTrip(n: int)
    requires IntMin <= n < 0
    ensures ParseInt(IntToString(n)) == Ok(n)
  {
    var digits := NatToString(-n);
    var s := "-" + digits;
    DigitsOfNat(-n);
    assert s[1..] == digits && s[0] == '-';
    assert IntToString(n) == s;
  }
}
