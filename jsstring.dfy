/** The JavaScript string operations the blog API relies on: `startsWith`, `split(' ')`
    and `parseInt` with no radix. */
module JsString {
  import opened Results

  /** `s.startsWith(p)`. */
  predicate StartsWith(s: string, p: string) {
    |p| <= |s| && s[..|p|] == p
  }

  /** `s.split(c)` for a one-character separator: every separator ends a segment, so
      there is always one more segment than there are separators, and segments may be
      empty. */
  function Split(s: string, c: char): (r: seq<string>)
    ensures |r| >= 1
    decreases |s|
  {
    if s == [] then [[]]
    else
      var rest := Split(s[1..], c);
      if s[0] == c then [[]] + rest else [[s[0]] + rest[0]] + rest[1..]
  }

  /** `parts.join(c)`. */
  function Join(parts: seq<string>, c: char): string
    requires |parts| >= 1
    decreases |parts|
  {
    if |parts| == 1 then parts[0] else parts[0] + [c] + Join(parts[1..], c)
  }

  /** No segment of a split holds the separator, and joining the segments gives the
      string back. */
  lemma {:induction false} SplitJoin(s: string, c: char)
    ensures forall i :: 0 <= i < |Split(s, c)| ==> c !in Split(s, c)[i]
    ensures Join(Split(s, c), c) == s
    decreases |s|
  {
    if s != [] {
      SplitJoin(s[1..], c);
      var rest := Split(s[1..], c);
      if s[0] == c {
        assert ([[]] + rest)[1..] == rest;
      } else {
        var r := [[s[0]] + rest[0]] + rest[1..];
        if |rest| > 1 {
          assert r[1..] == rest[1..];
          assert Join(rest, c) == rest[0] + [c] + Join(rest[1..], c);
        }
        assert s == [s[0]] + s[1..];
      }
    }
  }

  /** Conversely, splitting a join of separator-free segments gives the segments back. */
  lemma {:induction false} JoinSplit(parts: seq<string>, c: char)
    requires |parts| >= 1 && forall i :: 0 <= i < |parts| ==> c !in parts[i]
    ensures Split(Join(parts, c), c) == parts
    decreases |parts|
  {
    if |parts| == 1 {
      SplitFree(parts[0], [], c);
      assert parts[0] + [] == parts[0];
    } else {
      JoinSplit(parts[1..], c);
      SplitAfter(parts[0], Join(parts[1..], c), c);
      assert parts[0] + [c] + Join(parts[1..], c) == parts[0] + ([c] + Join(parts[1..], c));
      assert [parts[0]] + parts[1..] == parts;
    }
  }

  /** A separator-free prefix `p` joins the first segment of what follows it. */
  lemma {:induction false} SplitFree(p: string, q: string, c: char)
    requires c !in p
    ensures Split(p + q, c) == [p + Split(q, c)[0]] + Split(q, c)[1..]
    decreases |p|
  {
    var rs := Split(q, c);
    if p != [] {
      var s := p + q;
      assert s[0] == p[0] != c;
      assert s[1..] == p[1..] + q;
      assert c !in p[1..] by { assert forall x :: x in p[1..] ==> x in p; }
      SplitFree(p[1..], q, c);
      var rest := Split(s[1..], c);
      assert rest[0] == p[1..] + rs[0] && rest[1..] == rs[1..];
      assert Split(s, c) == [[s[0]] + rest[0]] + rest[1..];
      assert [p[0]] + (p[1..] + rs[0]) == p + rs[0];
    } else {
      assert p + q == q;
      assert [] + Split(q, c)[0] == Split(q, c)[0];
      assert [Split(q, c)[0]] + Split(q, c)[1..] == Split(q, c);
    }
  }

  /** A separator right after a separator-free `p` ends the first segment. */
  lemma SplitAfter(p: string, q: string, c: char)
    requires c !in p
    ensures Split(p + ([c] + q), c) == [p] + Split(q, c)
  {
    SplitFree(p, [c] + q, c);
    assert ([c] + q)[1..] == q;
    var r := Split([c] + q, c);
    assert r == [[]] + Split(q, c);
    assert r[0] == [] && r[1..] == Split(q, c);
    assert p + [] == p;
  }

  const BearerPrefix := "Bearer "

  /** `authHeader.split(' ')[1]` on a header that starts with "Bearer ": the text after
      the prefix up to the next space (or to the end). */
  function BearerToken(h: string): (t: string)
    requires StartsWith(h, BearerPrefix)
    ensures ' ' !in t && StartsWith(h[|BearerPrefix|..], t)
    ensures |t| == |h| - |BearerPrefix| || h[|BearerPrefix| + |t|] == ' '
  {
    var rest := h[|BearerPrefix|..];
    assert h == "Bearer" + ([' '] + rest) by {
      assert h == h[..|BearerPrefix|] + rest;
    }
    SplitAfter("Bearer", rest, ' ');
    FirstSegment(rest, ' ');
    Split(h, ' ')[1]
  }

  /** The first segment of a split is the longest separator-free prefix. */
  lemma {:induction false} FirstSegment(s: string, c: char)
    ensures c !in Split(s, c)[0] && StartsWith(s, Split(s, c)[0])
    ensures |Split(s, c)[0]| == |s| || s[|Split(s, c)[0]|] == c
    decreases |s|
  {
    if s != [] {
      FirstSegment(s[1..], c);
    }
  }

  /** A header "Bearer <t>" with no further space carries exactly the token `t`. */
  lemma BearerTokenOf(t: string)
    requires ' ' !in t
    ensures StartsWith(BearerPrefix + t, BearerPrefix)
    ensures BearerToken(BearerPrefix + t) == t
  {
    var h := BearerPrefix + t;
    assert h[..|BearerPrefix|] == BearerPrefix;
    assert h[|BearerPrefix|..] == t;
    var r := BearerToken(h);
    assert r == t[..|r|];
  }

  /** ECMAScript's StrWhiteSpaceChar: white space and line terminators. */
  predicate IsJsSpace(c: char) {
    || '\t' <= c <= '\r' || c == ' ' || c == '\U{A0}' || c == '\U{1680}'
    || '\U{2000}' <= c <= '\U{200A}'
    || c == '\U{2028}' || c == '\U{2029}' || c == '\U{202F}' || c == '\U{205F}' || c == '\U{3000}'
    || c == '\U{FEFF}'
  }


  /** The string with its leading white space removed. */
  function TrimStart(s: string): string
    decreases |s|
  {
    if s != [] && IsJsSpace(s[0]) then TrimStart(s[1..]) else s
  }

  /** The value of a digit character in radix 36, or 36 for any other character. */
  function DigitValue(c: char): (d: nat)
    ensures d <= 36
  {
    if '0' <= c <= '9' then c as nat - '0' as nat
    else if 'a' <= c <= 'z' then c as nat - 'a' as nat + 10
    else if 'A' <= c <= 'Z' then c as nat - 'A' as nat + 10
    else 36
  }

  predicate IsDigit(c: char, radix: nat) {
    DigitValue(c) < radix
  }

  /** The longest prefix of `s` made of digits of `radix`. */
  function DigitPrefix(s: string, radix: nat): string
    decreases |s|
  {
    if s == [] || !IsDigit(s[0], radix) then [] else [s[0]] + DigitPrefix(s[1..], radix)
  }

  /** The number the digits `ds` write in `radix`, most significant first. */
  function Value(ds: string, radix: nat): nat
    decreases |ds|
  {
    if ds == [] then 0
    else Value(ds[..|ds| - 1], radix) * radix + DigitValue(ds[|ds| - 1])
  }

  /** `parseInt(s)`: leading white space and one sign are skipped, a "0x" or "0X" prefix
      selects radix 16, and the longest run of digits that follows is read; NaN (None)
      when that run is empty. The value is the exact integer the digits write. */
  function ParseInt(s: string): Option<int> {
    ReadSigned(TrimStart(s))
  }

  /** The number at the start of `t`, after an optional sign. */
  function ReadSigned(t: string): Option<int> {
    match ReadUnsigned(Unsigned(t))
    case None => None
    case Some(v) => if t != [] && t[0] == '-' then Some(-(v as int)) else Some(v)
  }

  /** The digits at the start of `u`, in radix 16 after "0x" or "0X" and in radix 10
      otherwise. */
  function ReadUnsigned(u: string): Option<nat> {
    var ds := DigitPrefix(Unprefixed(u), RadixOf(u));
    if ds == [] then None else Some(Value(ds, RadixOf(u)))
  }

  /** The string after one leading sign. */
  function Unsigned(t: string): string {
    if t != [] && (t[0] == '-' || t[0] == '+') then t[1..] else t
  }

  predicate HexPrefixed(u: string) {
    |u| >= 2 && u[0] == '0' && (u[1] == 'x' || u[1] == 'X')
  }

  function RadixOf(u: string): nat {
    if HexPrefixed(u) then 16 else 10
  }

  function Unprefixed(u: string): string {
    if HexPrefixed(u) then u[2..] else u
  }

  /** The decimal digits of `n`, without leading zeros. */
  function Decimal(n: nat): (r: string)
    ensures r != [] && forall i :: 0 <= i < |r| ==> '0' <= r[i] <= '9'
    ensures r[0] == '0' ==> n == 0
  {
    if n < 10 then [('0' as nat + n) as char]
    else Decimal(n / 10) + [('0' as nat + n % 10) as char]
  }

  /** `String(n)` for an integer. */
  function Show(n: int): string {
    if n < 0 then "-" + Decimal(-n) else Decimal(n)
  }

  /** Reading digits back gives the number they were written from. */
  lemma {:induction false} ValueDecimal(n: nat)
    ensures Value(Decimal(n), 10) == n
  {
    if n >= 10 {
      ValueDecimal(n / 10);
      var d := Decimal(n);
      assert d[..|d| - 1] == Decimal(n / 10);
    }
  }

  /** The digit run of `ds + rest` is `ds` when `rest` does not go on with a digit. */
  lemma {:induction false} DigitPrefixOf(ds: string, rest: string, radix: nat)
    requires forall i :: 0 <= i < |ds| ==> IsDigit(ds[i], radix)
    requires rest == [] || !IsDigit(rest[0], radix)
    ensures DigitPrefix(ds + rest, radix) == ds
    decreases |ds|
  {
    if ds != [] {
      assert (ds + rest)[1..] == ds[1..] + rest;
      DigitPrefixOf(ds[1..], rest, radix);
    } else {
      assert ds + rest == rest;
    }
  }

  /** `parseInt(String(n) + rest)` is `n` for every integer `n`, when `rest` does not go on
      with a digit (nor, after a lone "0", with the "x" of a hex prefix): the number is
      read up to the first character that cannot continue it. */
  lemma ParseIntShow(n: int, rest: string)
    requires rest == [] || (!IsDigit(rest[0], 10) && !(n == 0 && (rest[0] == 'x' || rest[0] == 'X')))
    ensures ParseInt(Show(n) + rest) == Some(n)
  {
    if n < 0 {
      ParseIntShowNegative(n, rest);
    } else {
      ParseIntShowNatural(n, rest);
    }
  }

  lemma ParseIntShowNegative(n: int, rest: string)
    requires rest == [] || !IsDigit(rest[0], 10)
    requires n < 0
    ensures ParseInt(Show(n) + rest) == Some(n)
  {
    var u := Decimal(-n) + rest;
    var s := "-" + u;
    DecimalReads(-n, rest);
    ShowNegative(n, rest);
    assert s[0] == '-' && !IsJsSpace(s[0]);
    UnpaddedRead(s);
    ReadNegative(u, -n);
    assert ParseInt(s) == Some(n);
  }

  lemma ParseIntShowNatural(n: nat, rest: string)
    requires rest == [] || (!IsDigit(rest[0], 10) && !(n == 0 && (rest[0] == 'x' || rest[0] == 'X')))
    ensures ParseInt(Show(n) + rest) == Some(n)
  {
    var u := Decimal(n) + rest;
    DecimalReads(n, rest);
    assert Show(n) + rest == u;
    UnpaddedRead(u);
    ReadPositive(u, n);
  }

  lemma ShowNegative(n: int, rest: string)
    requires n < 0
    ensures Show(n) + rest == "-" + (Decimal(-n) + rest)
  {
  }

  lemma UnpaddedRead(s: string)
    requires s != [] && !IsJsSpace(s[0])
    ensures ParseInt(s) == ReadSigned(s)
  {
  }

  lemma ReadPositive(u: string, m: nat)
    requires ReadUnsigned(u) == Some(m) && u != [] && '0' <= u[0] <= '9'
    ensures ReadSigned(u) == Some(m)
  {
  }

  lemma ReadNegative(u: string, m: nat)
    requires ReadUnsigned(u) == Some(m)
    ensures ReadSigned("-" + u) == Some(-(m as int))
  {
    assert ("-" + u)[1..] == u;
  }

  /** The digits of `m` followed by `rest` are read, in radix 10, as `m`. */
  lemma DecimalReads(m: nat, rest: string)
    requires rest == [] || (!IsDigit(rest[0], 10) && !(m == 0 && (rest[0] == 'x' || rest[0] == 'X')))
    ensures RadixOf(Decimal(m) + rest) == 10 && Unprefixed(Decimal(m) + rest) == Decimal(m) + rest
    ensures DigitPrefix(Decimal(m) + rest, 10) == Decimal(m)
    ensures Value(Decimal(m), 10) == m
    ensures ReadUnsigned(Decimal(m) + rest) == Some(m) && '0' <= (Decimal(m) + rest)[0] <= '9'
  {
    var d := Decimal(m);
    var u := d + rest;
    ValueDecimal(m);
    DigitPrefixOf(d, rest, 10);
    assert !HexPrefixed(u);
  }

  /** Leading white space does not change what `parseInt` reads. */
  lemma ParseIntSkipsSpace(w: string, s: string)
    requires forall i :: 0 <= i < |w| ==> IsJsSpace(w[i])
    ensures ParseInt(w + s) == ParseInt(s)
  {
    TrimStartSkips(w, s);
  }

  lemma {:induction false} TrimStartSkips(w: string, s: string)
    requires forall i :: 0 <= i < |w| ==> IsJsSpace(w[i])
    ensures TrimStart(w + s) == TrimStart(s)
    decreases |w|
  {
    if w != [] {
      assert (w + s)[1..] == w[1..] + s;
      TrimStartSkips(w[1..], s);
    } else {
      assert w + s == s;
    }
  }

  /** Prisma's `Int` is a 32-bit signed integer. */
  predicate IsInt32(n: int) {
    -0x8000_0000 <= n < 0x8000_0000
  }

  /** `parseInt(id)` as a record id: None when it is NaN or does not fit an `Int`, in
      which case the store call that receives it raises. */
  function IdOf(s: string): (r: Option<int>)
    ensures r.Some? <==> ParseInt(s).Some? && IsInt32(ParseInt(s).value)
    ensures r.Some? ==> r.value == ParseInt(s).value
  {
    match ParseInt(s)
    case Some(n) => if IsInt32(n) then Some(n) else None
    case None => None
  }
}
