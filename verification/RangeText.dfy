/** Ranges as text: decimal numbers, block sidecars, Range and Content-Range headers. */
module RangeText {
  import opened Intervals

  /** Largest int64, the limit of strconv.ParseInt. */
  const MAX_INT64: int := 0x7fff_ffff_ffff_ffff

  const DIGITS := "0123456789"

  predicate IsDigit(c: char) { '0' <= c <= '9' }

  predicate AllDigits(s: string) { forall i :: 0 <= i < |s| ==> IsDigit(s[i]) }

  function DigitValue(c: char): nat
    requires IsDigit(c)
  {
    c as int - '0' as int
  }

  /** %d for a non-negative number. */
  function Print(n: nat): (s: string)
    ensures s != [] && AllDigits(s)
  {
    if n < 10 then [DIGITS[n]] else Print(n / 10) + [DIGITS[n % 10]]
  }

  function DigitsValue(s: string): nat
    requires AllDigits(s)
  {
    if s == [] then 0 else DigitsValue(s[..|s| - 1]) * 10 + DigitValue(s[|s| - 1])
  }

  /** strconv.ParseInt(s, 10, 64), None for its errors. */
  function ParseInt(s: string): Option<int> {
    if s == [] then None
    else if s[0] == '-' then
      if |s| > 1 && AllDigits(s[1..]) && DigitsValue(s[1..]) <= MAX_INT64 + 1
      then var magnitude: int := DigitsValue(s[1..]); Some(-magnitude)
      else None
    else
      var digits := if s[0] == '+' then s[1..] else s;
      if digits != [] && AllDigits(digits) && DigitsValue(digits) <= MAX_INT64 then Some(DigitsValue(digits)) else None
  }

  lemma {:induction false} DigitsOfPrint(n: nat)
    ensures DigitsValue(Print(n)) == n
  {
    if n >= 10 {
      DigitsOfPrint(n / 10);
      var s := Print(n);
      assert s[..|s| - 1] == Print(n / 10);
    } else {
      assert Print(n)[..0] == [];
    }
  }

  lemma ParsePrint(n: nat)
    requires n <= MAX_INT64
    ensures ParseInt(Print(n)) == Some(n)
  {
    DigitsOfPrint(n);
    assert IsDigit(Print(n)[0]);
  }

  predicate IsSpace(c: char) { c == ' ' || c == '\t' || c == '\n' || c == '\r' || c == 11 as char || c == 12 as char }

  function TrimLeft(s: string): string {
    if s != [] && IsSpace(s[0]) then TrimLeft(s[1..]) else s
  }

  function TrimRight(s: string): string {
    if s != [] && IsSpace(s[|s| - 1]) then TrimRight(s[..|s| - 1]) else s
  }

  function TrimSpace(s: string): string { TrimRight(TrimLeft(s)) }

  /** Split at every occurrence of the separator. */
  function Split(s: string, separator: char): (parts: seq<string>)
    ensures parts != []
  {
    if s == [] then [[]]
    else if s[0] == separator then [[]] + Split(s[1..], separator)
    else
      var rest := Split(s[1..], separator);
      [[s[0]] + rest[0]] + rest[1..]
  }

  lemma {:induction false} SplitOnce(a: string, separator: char, b: string)
    requires separator !in a && separator !in b
    ensures Split(a + [separator] + b, separator) == [a, b]
  {
    var s := a + [separator] + b;
    if a == [] {
      assert s[1..] == b;
      SplitNone(b, separator);
    } else {
      assert s[1..] == a[1..] + [separator] + b;
      SplitOnce(a[1..], separator, b);
      assert [a[0]] + a[1..] == a;
    }
  }

  lemma {:induction false} SplitNone(b: string, separator: char)
    requires separator !in b
    ensures Split(b, separator) == [b]
  {
    if b != [] {
      SplitNone(b[1..], separator);
      assert [b[0]] + b[1..] == b;
    }
  }

  lemma DigitsHaveNoDash(s: string)
    requires AllDigits(s)
    ensures '-' !in s && '/' !in s && ',' !in s
    ensures forall c :: c in s ==> !IsSpace(c)
  {
  }

  // ---- sidecar files

  /** The text of a sidecar: "%d-%d\n". */
  function PrintSidecar(r: ByteRange): string
    requires 0 <= r.start && 0 <= r.end
  {
    Print(r.start) + "-" + Print(r.end) + "\n"
  }

  /** readSidecar. */
  function ReadSidecar(text: string): Option<ByteRange> {
    var parts := Split(TrimSpace(text), '-');
    if |parts| != 2 then None else
      match (ParseInt(parts[0]), ParseInt(parts[1]))
      case (Some(start), Some(end)) => Some(ByteRange(start, end))
      case _ => None
  }

  /** readRange of the head/tail cache, which also refuses inverted ranges. */
  function ReadStoredRange(text: string): Option<ByteRange> {
    var r := ReadSidecar(text);
    if r.Some? && r.value.end < r.value.start then None else r
  }

  lemma TrimmedLine(line: string)
    requires line != [] && !IsSpace(line[0]) && !IsSpace(line[|line| - 1])
    ensures TrimSpace(line + "\n") == line
  {
    var s := line + "\n";
    assert TrimLeft(s) == s;
    assert s[..|s| - 1] == line;
    assert TrimRight(line) == line;
  }

  /** A sidecar reads back as the range it was written for. */
  lemma SidecarRoundTrip(r: ByteRange)
    requires 0 <= r.start <= MAX_INT64 && 0 <= r.end <= MAX_INT64
    ensures ReadSidecar(PrintSidecar(r)) == Some(r)
    ensures NonEmpty(r) ==> ReadStoredRange(PrintSidecar(r)) == Some(r)
  {
    var a, b := Print(r.start), Print(r.end);
    var line := a + "-" + b;
    DigitsHaveNoDash(a);
    DigitsHaveNoDash(b);
    assert line[0] == a[0] && line[|line| - 1] == b[|b| - 1];
    assert a[0] in a && b[|b| - 1] in b;
    TrimmedLine(line);
    assert PrintSidecar(r) == line + "\n";
    SplitOnce(a, '-', b);
    ParsePrint(r.start);
    ParsePrint(r.end);
  }

  // ---- Range and Content-Range headers

  const BYTES_EQ := "bytes="
  const BYTES_SP := "bytes "

  /** Number of leading digits. */
  function DigitRun(s: string): (k: nat)
    ensures k <= |s| && AllDigits(s[..k])
    ensures k < |s| ==> !IsDigit(s[k])
  {
    if s == [] || !IsDigit(s[0]) then 0 else 1 + DigitRun(s[1..])
  }

  lemma {:induction false} DigitRunOf(digits: string, rest: string)
    requires AllDigits(digits) && (rest == [] || !IsDigit(rest[0]))
    ensures DigitRun(digits + rest) == |digits|
  {
    var s := digits + rest;
    if digits != [] {
      assert s[1..] == digits[1..] + rest;
      DigitRunOf(digits[1..], rest);
    } else {
      assert s == rest;
    }
  }

  /** The two groups of ^bytes=(\d*)-(\d*)$. */
  function MatchRange(s: string): Option<(string, string)> {
    if !(BYTES_EQ <= s) then None else
      var body := s[|BYTES_EQ|..];
      var k := DigitRun(body);
      if k < |body| && body[k] == '-' && AllDigits(body[k + 1..]) then Some((body[..k], body[k + 1..])) else None
  }

  /** The pattern matches exactly the strings built from two digit groups. */
  lemma MatchRangeExact(s: string, left: string, right: string)
    ensures MatchRange(s) == Some((left, right)) <==> AllDigits(left) && AllDigits(right) && s == BYTES_EQ + left + "-" + right
  {
    if AllDigits(left) && AllDigits(right) && s == BYTES_EQ + left + "-" + right {
      var body := s[|BYTES_EQ|..];
      assert body == left + ("-" + right);
      DigitRunOf(left, "-" + right);
      assert body[..|left|] == left && body[|left| + 1..] == right;
    }
    if MatchRange(s) == Some((left, right)) {
      var body := s[|BYTES_EQ|..];
      assert s == BYTES_EQ + body;
      assert body == left + "-" + right;
    }
  }

  datatype RangeError =
    | SizeNotPositive | MultipleRanges | Malformed | EmptyRange | BadSuffix | BadNumber | EndBeforeStart
    | NotSatisfiable

  datatype Parsed = Parsed(range: ByteRange) | Bad(error: RangeError)

  /** ParseRangeHeader. */
  function ParseRangeHeader(value: string, size: int): Parsed {
    if size <= 0 then Bad(SizeNotPositive)
    else if value == [] then Parsed(ByteRange(0, size - 1))
    else if ',' in value then Bad(MultipleRanges)
    else
      match MatchRange(TrimSpace(value))
      case None => Bad(Malformed)
      case Some((left, right)) =>
        if left == [] && right == [] then Bad(EmptyRange)
        else if left == [] then
          match ParseInt(right)
          case None => Bad(BadSuffix)
          case Some(length) =>
            if length <= 0 then Bad(BadSuffix) else Parsed(ByteRange(Max(0, size - length), size - 1))
        else
          match ParseInt(left)
          case None => Bad(BadNumber)
          case Some(start) =>
            if start >= size then Bad(NotSatisfiable)
            else if right == [] then Parsed(ByteRange(start, size - 1))
            else
              match ParseInt(right)
              case None => Bad(BadNumber)
              case Some(end) =>
                if end < start then Bad(EndBeforeStart) else Parsed(ByteRange(start, Min(end, size - 1)))
  }

  lemma DigitsParseNonNegative(s: string)
    requires AllDigits(s)
    ensures ParseInt(s).Some? ==> ParseInt(s).value >= 0
  {
  }

  /** Whatever the header says, an accepted range is non-empty and inside the file. */
  lemma ParsedIsInside(value: string, size: int)
    requires ParseRangeHeader(value, size).Parsed?
    ensures var r := ParseRangeHeader(value, size).range; 0 <= r.start <= r.end < size
  {
    if value != [] {
      var groups := MatchRange(TrimSpace(value)).value;
      MatchRangeExact(TrimSpace(value), groups.0, groups.1);
      DigitsParseNonNegative(groups.0);
      DigitsParseNonNegative(groups.1);
    }
  }

  function PrintRange(r: ByteRange): string
    requires 0 <= r.start && 0 <= r.end
  {
    BYTES_EQ + Print(r.start) + "-" + Print(r.end)
  }

  function PrintOpenRange(start: nat): string { BYTES_EQ + Print(start) + "-" }

  function PrintSuffixRange(length: nat): string { BYTES_EQ + "-" + Print(length) }

  lemma HeaderIsClean(left: string, right: string)
    requires AllDigits(left) && AllDigits(right)
    ensures var s := BYTES_EQ + left + "-" + right;
      TrimSpace(s) == s && s != [] && ',' !in s && MatchRange(s) == Some((left, right))
  {
    var s := BYTES_EQ + left + "-" + right;
    DigitsHaveNoDash(left);
    DigitsHaveNoDash(right);
    assert s[0] == 'b';
    assert TrimLeft(s) == s;
    assert s[|s| - 1] == (if right == [] then '-' else right[|right| - 1]);
    assert right != [] ==> right[|right| - 1] in right;
    assert TrimRight(s) == s;
    MatchRangeExact(s, left, right);
  }

  lemma BoundedRoundTrip(r: ByteRange, size: int)
    requires 0 <= r.start <= r.end < size <= MAX_INT64
    ensures ParseRangeHeader(PrintRange(r), size) == Parsed(r)
  {
    var a, b := Print(r.start), Print(r.end);
    HeaderIsClean(a, b);
    ParsePrint(r.start);
    ParsePrint(r.end);
  }

  lemma OpenRoundTrip(start: nat, size: int)
    requires 0 < size <= MAX_INT64 && start <= MAX_INT64
    ensures ParseRangeHeader(PrintOpenRange(start), size)
         == if start < size then Parsed(ByteRange(start, size - 1)) else Bad(NotSatisfiable)
  {
    var a := Print(start);
    HeaderIsClean(a, "");
    assert PrintOpenRange(start) == BYTES_EQ + a + "-" + "";
    ParsePrint(start);
  }

  lemma SuffixRoundTrip(length: nat, size: int)
    requires 0 < length <= MAX_INT64 && 0 < size <= MAX_INT64
    ensures ParseRangeHeader(PrintSuffixRange(length), size) == Parsed(ByteRange(Max(0, size - length), size - 1))
  {
    var n := Print(length);
    HeaderIsClean("", n);
    assert PrintSuffixRange(length) == BYTES_EQ + "" + "-" + n;
    ParsePrint(length);
  }

  function PrintContentRange(r: ByteRange, size: int): string
    requires 0 <= r.start && 0 <= r.end && 0 <= size
  {
    BYTES_SP + Print(r.start) + "-" + Print(r.end) + "/" + Print(size)
  }

  datatype ContentRange = ContentRange(range: ByteRange, size: int)

  /** parseContentRange, over ^bytes (\d+)-(\d+)/(\d+)$. */
  function ParseContentRange(s: string): Option<ContentRange> {
    if !(BYTES_SP <= s) then None else
      var body := s[|BYTES_SP|..];
      var i := DigitRun(body);
      if i == 0 || i == |body| || body[i] != '-' then None else
        var tail := body[i + 1..];
        var j := DigitRun(tail);
        if j == 0 || j == |tail| || tail[j] != '/' then None else
          var total := tail[j + 1..];
          if total == [] || !AllDigits(total) then None else
            match (ParseInt(body[..i]), ParseInt(tail[..j]), ParseInt(total))
            case (Some(start), Some(end), Some(size)) =>
              if size <= 0 || start > end || end >= size then None else Some(ContentRange(ByteRange(start, end), size))
            case _ => None
  }

  lemma ContentRangeRoundTrip(r: ByteRange, size: int)
    requires 0 <= r.start <= r.end < size <= MAX_INT64
    ensures ParseContentRange(PrintContentRange(r, size)) == Some(ContentRange(r, size))
  {
    var a, b, n := Print(r.start), Print(r.end), Print(size);
    ContentRangeGroups(a, b, n);
    ParsePrint(r.start);
    ParsePrint(r.end);
    ParsePrint(size);
  }

  lemma ContentRangeGroups(a: string, b: string, n: string)
    requires AllDigits(a) && AllDigits(b) && AllDigits(n) && a != [] && b != [] && n != []
    ensures var s := BYTES_SP + a + "-" + b + "/" + n;
      var body := s[|BYTES_SP|..];
      && BYTES_SP <= s && DigitRun(body) == |a| < |body| && body[|a|] == '-' && body[..|a|] == a
      && var tail := body[|a| + 1..];
         DigitRun(tail) == |b| < |tail| && tail[|b|] == '/' && tail[..|b|] == b && tail[|b| + 1..] == n
  {
    var s := BYTES_SP + a + "-" + b + "/" + n;
    var body := s[|BYTES_SP|..];
    assert body == a + ("-" + b + "/" + n);
    DigitRunOf(a, "-" + b + "/" + n);
    var tail := body[|a| + 1..];
    assert tail == b + ("/" + n);
    DigitRunOf(b, "/" + n);
  }

  /** Whatever an origin sends as Content-Range, an accepted one is a non-empty range inside its total. */
  lemma ContentRangeIsInside(s: string)
    requires ParseContentRange(s).Some?
    ensures var c := ParseContentRange(s).value; 0 <= c.range.start <= c.range.end < c.size
  {
    var body := s[|BYTES_SP|..];
    DigitsParseNonNegative(body[..DigitRun(body)]);
  }
}
