/** Failure-carrying results for the JavaScript operations that can throw. */
module Results {

  datatype Option<+T> = None | Some(value: T) {
    function GetOr(default: T): T {
      match this
      case Some(v) => v
      case None => default
    }
  }

  /** The exception this model represents: a TypeError from indexing
      `undefined`/`null`, assigning a property of a primitive in strict mode,
      or calling `push`/`splice` on something that is not an array. The
      RangeError of assigning an invalid array `length` is not represented,
      since array `length` assignment is not modelled. */
  datatype JsError = TypeError

  datatype Result<+T> = Ok(value: T) | Err(error: JsError) {
    predicate IsFailure() { Err? }
    function PropagateFailure<U>(): Result<U>
      requires Err?
    {
      Err(error)
    }
    function Extract(): T
      requires Ok?
    {
      value
    }
  }
}

/** The string operations the form engine relies on: `split(".")`, the
    dotted join the engine uses to build paths, decimal index strings
    (`${index}`), canonical array-index keys and `Number.parseInt(s, 10)`. */
module JsString {
  import opened Results

  /** `s.split(".")`: every segment is the text between two dots; there is
      no escaping, and the result is never empty (`"".split(".")` is `[""]`). */
  function Split(s: string): (r: seq<string>)
    ensures |r| >= 1
  {
    if s == [] then [""]
    else
      var rest := Split(s[1..]);
      if s[0] == '.' then [""] + rest
      else [[s[0]] + rest[0]] + rest[1..]
  }

  /** The segments joined with `.` (the inverse of Split). */
  function Join(segs: seq<string>): string
  {
    if |segs| == 0 then ""
    else if |segs| == 1 then segs[0]
    else segs[0] + "." + Join(segs[1..])
  }

  predicate NoDot(s: string) {
    '.' !in s
  }

  predicate AllNoDot(segs: seq<string>) {
    forall i :: 0 <= i < |segs| ==> NoDot(segs[i])
  }

  lemma AllNoDotCons(a: string, rest: seq<string>)
    requires NoDot(a) && AllNoDot(rest)
    ensures AllNoDot([a] + rest)
  {
    assert forall i :: 0 < i < |[a] + rest| ==> ([a] + rest)[i] == rest[i - 1];
  }

  lemma {:induction false} SplitSegmentsHaveNoDot(s: string)
    ensures AllNoDot(Split(s))
  {
    if s != [] {
      SplitSegmentsHaveNoDot(s[1..]);
      var rest := Split(s[1..]);
      if s[0] != '.' {
        assert [s[0]] + rest[0] == [s[0]] + rest[0];
        assert forall i :: 0 < i < |Split(s)| ==> Split(s)[i] == rest[i];
      }
    }
  }

  /** Splitting and joining again gives back the path text. */
  lemma {:induction false} JoinSplit(s: string)
    ensures Join(Split(s)) == s
  {
    if s != [] {
      JoinSplit(s[1..]);
      var rest := Split(s[1..]);
      if s[0] == '.' {
        assert Split(s) == [""] + rest;
        assert Join(Split(s)) == "" + "." + Join(rest);
      } else {
        var r := Split(s);
        if |rest| == 1 {
          assert r == [[s[0]] + rest[0]];
        } else {
          assert r[1..] == rest[1..];
          assert Join(rest) == rest[0] + "." + Join(rest[1..]);
        }
      }
    }
  }

  lemma {:induction false} SplitNoDotIsSingleton(s: string)
    requires NoDot(s)
    ensures Split(s) == [s]
  {
    if s != [] {
      SplitNoDotIsSingleton(s[1..]);
      assert s == [s[0]] + s[1..];
    }
  }

  /** The segments of `[c] + t` from the segments of t: a dot starts a new
      empty segment, any other character joins the first one. */
  function ConsSegments(c: char, segs: seq<string>): seq<string>
    requires |segs| >= 1
  {
    if c == '.' then [""] + segs else [[c] + segs[0]] + segs[1..]
  }

  lemma SplitCons(c: char, t: string)
    ensures Split([c] + t) == ConsSegments(c, Split(t))
  {
    assert ([c] + t)[1..] == t;
  }

  lemma ConsSegmentsAppend(c: char, x: seq<string>, y: seq<string>)
    requires |x| >= 1
    ensures ConsSegments(c, x + y) == ConsSegments(c, x) + y
  {
    assert (x + y)[0] == x[0] && (x + y)[1..] == x[1..] + y;
  }

  /** A dot splits the text into the segments before it and after it. */
  lemma {:induction false} SplitAroundDot(a: string, b: string)
    ensures Split(a + "." + b) == Split(a) + Split(b)
  {
    if a == [] {
      assert a + "." + b == ['.'] + b;
      SplitCons('.', b);
    } else {
      var c := a[0];
      var a' := a[1..];
      assert a == [c] + a';
      assert a + "." + b == [c] + (a' + "." + b);
      calc {
        Split(a + "." + b);
        { SplitCons(c, a' + "." + b); }
        ConsSegments(c, Split(a' + "." + b));
        { SplitAroundDot(a', b); }
        ConsSegments(c, Split(a') + Split(b));
        { ConsSegmentsAppend(c, Split(a'), Split(b)); }
        ConsSegments(c, Split(a')) + Split(b);
        { SplitCons(c, a'); }
        Split(a) + Split(b);
      }
    }
  }

  /** Joining dot-free segments and splitting again gives back the segments. */
  lemma {:induction false} SplitJoin(segs: seq<string>)
    requires |segs| >= 1 && AllNoDot(segs)
    ensures Split(Join(segs)) == segs
  {
    if |segs| == 1 {
      SplitNoDotIsSingleton(segs[0]);
    } else {
      SplitJoin(segs[1..]);
      SplitNoDotIsSingleton(segs[0]);
      SplitAroundDot(segs[0], Join(segs[1..]));
      assert segs == [segs[0]] + segs[1..];
    }
  }

  lemma {:induction false} JoinSnoc(segs: seq<string>, t: string)
    requires |segs| >= 1
    ensures Join(segs + [t]) == Join(segs) + "." + t
  {
    if |segs| == 1 {
      assert (segs + [t])[1..] == [t];
    } else {
      JoinSnoc(segs[1..], t);
      assert (segs + [t])[1..] == segs[1..] + [t];
    }
  }

  // ---------------------------------------------------------------------
  // Decimal numbers

  predicate IsDigit(c: char) {
    '0' <= c <= '9'
  }

  predicate AllDigits(s: string) {
    forall i :: 0 <= i < |s| ==> IsDigit(s[i])
  }

  function DigitValue(c: char): nat
    requires IsDigit(c)
  {
    (c as int) - ('0' as int)
  }

  function DigitChar(d: nat): (c: char)
    requires d < 10
    ensures IsDigit(c) && DigitValue(c) == d
  {
    (('0' as int) + d) as char
  }

  /** The value of a run of decimal digits. */
  function DigitsValue(s: string): nat
    requires AllDigits(s)
  {
    if s == [] then 0 else DigitsValue(s[..|s| - 1]) * 10 + DigitValue(s[|s| - 1])
  }

  /** `${n}` for a non-negative integer. */
  function NatToString(n: nat): (s: string)
    ensures |s| >= 1 && AllDigits(s)
  {
    if n < 10 then [DigitChar(n)] else NatToString(n / 10) + [DigitChar(n % 10)]
  }

  /** A property key that JavaScript reads as an array index: decimal digits
      without a leading zero (except "0" itself). */
  predicate IsCanonicalIndex(s: string) {
    |s| >= 1 && AllDigits(s) && (s[0] != '0' || |s| == 1)
  }

  function ParseIndex(s: string): (r: Option<nat>)
  {
    if IsCanonicalIndex(s) then Some(DigitsValue(s)) else None
  }

  lemma {:induction false} NatToStringFirstDigit(n: nat)
    ensures NatToString(n)[0] != '0' || n == 0
    ensures n < 10 <==> |NatToString(n)| == 1
  {
    if n >= 10 {
      NatToStringFirstDigit(n / 10);
    }
  }

  lemma {:induction false} NatToStringValue(n: nat)
    ensures DigitsValue(NatToString(n)) == n
  {
    if n >= 10 {
      NatToStringValue(n / 10);
      var s := NatToString(n);
      assert s[..|s| - 1] == NatToString(n / 10);
    }
  }

  /** `${i}` is a canonical array index whose value is i, and it has no dot. */
  lemma NatToStringIsIndex(n: nat)
    ensures ParseIndex(NatToString(n)) == Some(n)
    ensures NoDot(NatToString(n)) && NatToString(n) != ""
  {
    NatToStringFirstDigit(n);
    NatToStringValue(n);
  }

  lemma {:induction false} DigitsValueLeadingNonZero(s: string)
    requires |s| >= 1 && AllDigits(s) && s[0] != '0'
    ensures DigitsValue(s) >= 1
  {
    if |s| > 1 {
      DigitsValueLeadingNonZero(s[..|s| - 1]);
    }
  }

  /** A canonical index string is exactly `${value}`: index keys are unique. */
  lemma {:induction false} CanonicalIndexIsNatToString(s: string)
    requires IsCanonicalIndex(s)
    ensures NatToString(DigitsValue(s)) == s
  {
    if |s| > 1 {
      var init := s[..|s| - 1];
      CanonicalIndexIsNatToString(init);
      DigitsValueLeadingNonZero(init);
      var v := DigitsValue(s);
      assert v / 10 == DigitsValue(init);
      assert v % 10 == DigitValue(s[|s| - 1]);
      assert s == init + [s[|s| - 1]];
    }
  }

  lemma ParseIndexInjective(s: string, t: string)
    requires ParseIndex(s).Some? && ParseIndex(s) == ParseIndex(t)
    ensures s == t
  {
    CanonicalIndexIsNatToString(s);
    CanonicalIndexIsNatToString(t);
  }

  /** The longest run of digits at the start of s. */
  function LeadingDigits(s: string): (r: string)
    ensures r <= s && AllDigits(r)
  {
    if s != [] && IsDigit(s[0]) then [s[0]] + LeadingDigits(s[1..]) else []
  }

  /** `Number.parseInt(s, 10)`: an optional sign, then the leading digits;
      no digits gives NaN, modelled as None. (Leading white space, which
      JavaScript skips, is not modelled.) */
  function ParseInt(s: string): Option<int>
  {
    var signed := |s| >= 1 && (s[0] == '+' || s[0] == '-');
    var digits := LeadingDigits(if signed then s[1..] else s);
    if digits == [] then None
    else if signed && s[0] == '-' then Some(0 - DigitsValue(digits) as int)
    else Some(DigitsValue(digits))
  }

  lemma {:induction false} LeadingDigitsOfDigits(s: string)
    requires AllDigits(s)
    ensures LeadingDigits(s) == s
  {
    if s != [] {
      LeadingDigitsOfDigits(s[1..]);
    }
  }

  /** parseInt reads every canonical index key as that index. */
  lemma ParseIntOfIndex(s: string)
    requires ParseIndex(s).Some?
    ensures ParseInt(s) == Some(ParseIndex(s).value as int)
  {
    LeadingDigitsOfDigits(s);
  }
}
