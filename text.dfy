/** String helpers the server actions rely on: JavaScript's `trim`, `join`
    and the decimal rendering of a number inside a template literal. */
module Text {

  /** The characters JavaScript's `String.prototype.trim` strips that this
      model knows about: ASCII white space, no-break space and the BOM. */
  predicate IsSpace(c: char)
  {
    c == ' ' || c == '\t' || c == '\n' || c == '\r' || c == '\U{000B}' || c == '\U{000C}'
    || c == '\U{00A0}' || c == '\U{FEFF}'
  }

  /** Drops leading white space: the result is a suffix of `s` that does not
      start with white space, and everything dropped was white space. */
  function TrimStart(s: string): (r: string)
    ensures |r| <= |s| && r == s[|s| - |r|..]
    ensures r == [] || !IsSpace(r[0])
    ensures forall k :: 0 <= k < |s| - |r| ==> IsSpace(s[k])
  {
    if s == [] || !IsSpace(s[0]) then s else TrimStart(s[1..])
  }

  /** Drops trailing white space: the result is a prefix of `s` that does not
      end with white space, and everything dropped was white space. */
  function TrimEnd(s: string): (r: string)
    ensures |r| <= |s| && r == s[..|r|]
    ensures r == [] || !IsSpace(r[|r| - 1])
    ensures forall k :: |r| <= k < |s| ==> IsSpace(s[k])
  {
    if s == [] || !IsSpace(s[|s| - 1]) then s else TrimEnd(s[..|s| - 1])
  }

  /** `s.trim()`: a contiguous part of `s` with white space at neither end;
      `TrimDropsOnlySpace` adds that only white space is dropped. */
  function Trim(s: string): (r: string)
    ensures exists i, j :: 0 <= i <= j <= |s| && r == s[i..j]
    ensures r != [] ==> !IsSpace(r[0]) && !IsSpace(r[|r| - 1])
  {
    var a := TrimStart(s);
    var b := TrimEnd(a);
    assert b == s[|s| - |a|..|s| - |a| + |b|];
    b
  }

  /** What `trim` drops before and after the kept part is all white space,
      so the trimmed text is the message with its white-space margins cut. */
  lemma TrimDropsOnlySpace(s: string)
    ensures exists i, j :: && 0 <= i <= j <= |s| && Trim(s) == s[i..j]
                           && (forall k :: 0 <= k < i ==> IsSpace(s[k]))
                           && (forall k :: j <= k < |s| ==> IsSpace(s[k]))
  {
    var a := TrimStart(s);
    var b := TrimEnd(a);
    var i, j := |s| - |a|, |s| - |a| + |b|;
    assert b == s[i..j];
    assert forall k :: j <= k < |s| ==> IsSpace(s[k]) by {
      forall k | j <= k < |s| ensures IsSpace(s[k]) {
        assert s[k] == a[k - i];
      }
    }
  }

  /** A string with no white space at either end trims to itself. */
  lemma TrimNoMargin(s: string)
    requires s != [] && !IsSpace(s[0]) && !IsSpace(s[|s| - 1])
    ensures Trim(s) == s
  {
    assert TrimStart(s) == s;
    assert TrimEnd(s) == s;
  }

  /** A string trims to the empty string exactly when it is all white space,
      which is the condition under which `!message.trim()` holds. */
  lemma {:induction false} TrimEmptyIffAllSpace(s: string)
    ensures Trim(s) == [] <==> forall k :: 0 <= k < |s| ==> IsSpace(s[k])
  {
    var a := TrimStart(s);
    if a == [] {
    } else {
      assert !IsSpace(a[0]);
      assert s[|s| - |a|] == a[0];
      var b := TrimEnd(a);
    }
  }

  /** Trimming twice is trimming once. */
  lemma TrimIdempotent(s: string)
    ensures Trim(Trim(s)) == Trim(s)
  {
    var t := Trim(s);
    if t != [] {
      assert !IsSpace(t[0]) && !IsSpace(t[|t| - 1]);
      assert TrimStart(t) == t;
      assert TrimEnd(t) == t;
    }
  }

  /** `parts.join(sep)`. */
  function Join(parts: seq<string>, sep: string): string
  {
    if parts == [] then ""
    else if |parts| == 1 then parts[0]
    else Join(parts[..|parts| - 1], sep) + sep + parts[|parts| - 1]
  }

  /** Where the `i`-th part starts in a join: every earlier part is followed
      by one separator. */
  function Offset(parts: seq<string>, sep: string, i: nat): nat
    requires i <= |parts|
  {
    if i == 0 then 0 else Offset(parts, sep, i - 1) + |parts[i - 1]| + |sep|
  }

  /** `r[lo..hi]` exists and is `piece`. */
  predicate SliceIs(r: string, lo: nat, hi: nat, piece: string)
  {
    lo <= hi <= |r| && r[lo..hi] == piece
  }

  /** Offsets only look at the parts before them. */
  lemma {:induction false} OffsetPrefix(parts: seq<string>, parts': seq<string>, sep: string, i: nat)
    requires i <= |parts| && i <= |parts'| && parts[..i] == parts'[..i]
    ensures Offset(parts, sep, i) == Offset(parts', sep, i)
  {
    if i > 0 {
      assert parts[..i - 1] == parts[..i][..i - 1] && parts'[..i - 1] == parts'[..i][..i - 1];
      assert parts[i - 1] == parts[..i][i - 1] && parts'[i - 1] == parts'[..i][i - 1];
      OffsetPrefix(parts, parts', sep, i - 1);
    }
  }

  /** A join is as long as its parts and the separators between them; with
      `JoinPart` and `JoinSep`, which place every part and every separator,
      this says the joined string is exactly those pieces in order. */
  lemma {:induction false} JoinLength(parts: seq<string>, sep: string)
    requires parts != []
    ensures |Join(parts, sep)| + |sep| == Offset(parts, sep, |parts|)
  {
    if |parts| > 1 {
      var n := |parts| - 1;
      JoinLength(parts[..n], sep);
      assert parts[..n] == parts[..n][..n];
      OffsetPrefix(parts, parts[..n], sep, n);
    }
  }

  /** A join of several parts extends the join of all but the last. */
  lemma JoinSnoc(parts: seq<string>, sep: string)
    requires |parts| > 1
    ensures var head := Join(parts[..|parts| - 1], sep);
      && Join(parts, sep)[..|head|] == head
      && Join(parts, sep)[|head|..|head| + |sep|] == sep
      && Join(parts, sep)[|head| + |sep|..] == parts[|parts| - 1]
  {
  }

  /** The `i`-th part sits at its offset. */
  lemma {:induction false} JoinPart(parts: seq<string>, sep: string, i: nat)
    requires i < |parts|
    ensures SliceIs(Join(parts, sep), Offset(parts, sep, i), Offset(parts, sep, i) + |parts[i]|, parts[i])
  {
    if |parts| > 1 {
      var n := |parts| - 1;
      var init := parts[..n];
      assert parts[..i] == init[..i];
      OffsetPrefix(parts, init, sep, i);
      JoinSnoc(parts, sep);
      if i < n {
        JoinPart(init, sep, i);
        JoinLength(init, sep);
        assert init[i] == parts[i];
      } else {
        JoinLength(init, sep);
      }
    }
  }

  /** One separator sits between the `i`-th part and the next. */
  lemma {:induction false} JoinSep(parts: seq<string>, sep: string, i: nat)
    requires i + 1 < |parts|
    ensures SliceIs(Join(parts, sep), Offset(parts, sep, i) + |parts[i]|, Offset(parts, sep, i + 1), sep)
  {
    var n := |parts| - 1;
    var init := parts[..n];
    assert parts[..i + 1] == init[..i + 1];
    OffsetPrefix(parts, init, sep, i + 1);
    JoinSnoc(parts, sep);
    JoinLength(init, sep);
    if i + 1 < n {
      JoinSep(init, sep, i);
      assert init[i] == parts[i];
    } else {
      assert parts[..i] == init[..i];
      OffsetPrefix(parts, init, sep, i);
    }
  }

  predicate IsDigit(c: char)
  {
    '0' <= c <= '9'
  }

  function DigitChar(d: nat): (c: char)
    requires d < 10
    ensures IsDigit(c)
  {
    "0123456789"[d]
  }

  function DigitValue(c: char): (d: nat)
    requires IsDigit(c)
    ensures d < 10 && DigitChar(d) == c
  {
    (c as int - '0' as int) as nat
  }

  /** The decimal numeral of `n`, as JavaScript renders a non-negative
      integer inside a template literal. */
  function Decimal(n: nat): (r: string)
    ensures r != [] && forall k :: 0 <= k < |r| ==> IsDigit(r[k])
  {
    if n < 10 then [DigitChar(n)] else Decimal(n / 10) + [DigitChar(n % 10)]
  }

  /** Reads a string of digits back as a number. */
  function DecimalValue(s: string): (v: nat)
    requires forall k :: 0 <= k < |s| ==> IsDigit(s[k])
  {
    if s == [] then 0 else DecimalValue(s[..|s| - 1]) * 10 + DigitValue(s[|s| - 1])
  }

  /** Reading the numeral of `n` gives `n` back. */
  lemma {:induction false} DecimalRoundTrip(n: nat)
    ensures DecimalValue(Decimal(n)) == n
  {
    var s := Decimal(n);
    if n < 10 {
      assert s[..0] == [];
    } else {
      DecimalRoundTrip(n / 10);
      assert s[..|s| - 1] == Decimal(n / 10);
      assert DigitValue(s[|s| - 1]) == n % 10;
    }
  }

  /** Different numbers have different numerals. */
  lemma DecimalInjective(a: nat, b: nat)
    requires Decimal(a) == Decimal(b)
    ensures a == b
  {
    DecimalRoundTrip(a);
    DecimalRoundTrip(b);
  }

  /** The position of the first `c` in `s`, or `|s|` when there is none. */
  function FirstIndex(s: string, c: char): (i: nat)
    ensures i <= |s|
    ensures forall k :: 0 <= k < i ==> s[k] != c
    ensures i < |s| ==> s[i] == c
  {
    if s == [] then 0 else if s[0] == c then 0 else 1 + FirstIndex(s[1..], c)
  }

  lemma {:induction false} FirstIndexAfter(x: string, y: string, c: char)
    requires forall k :: 0 <= k < |x| ==> x[k] != c
    ensures FirstIndex(x + [c] + y, c) == |x|
  {
    if x != [] {
      assert (x + [c] + y)[1..] == x[1..] + [c] + y;
      FirstIndexAfter(x[1..], y, c);
    }
  }

  /** If `x + [c] + y == x' + [c] + y'` and neither `x` nor `x'` contains
      `c`, the two splits are the same. */
  lemma SplitAtFirst(x: string, y: string, x': string, y': string, c: char)
    requires forall k :: 0 <= k < |x| ==> x[k] != c
    requires forall k :: 0 <= k < |x'| ==> x'[k] != c
    requires x + [c] + y == x' + [c] + y'
    ensures x == x' && y == y'
  {
    var s := x + [c] + y;
    FirstIndexAfter(x, y, c);
    FirstIndexAfter(x', y', c);
    assert x == s[..|x|];
    assert x' == (x' + [c] + y')[..|x'|];
    assert y == s[|x| + 1..];
    assert y' == (x' + [c] + y')[|x'| + 1..];
  }
}
