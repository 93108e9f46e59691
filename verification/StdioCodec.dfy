/** The decimal text in which a stdio file's extended attributes record offsets and ranges. */
module StdioCodec {
  import opened Option
  import opened Text

  const MAX_INT64: int := 0x7fff_ffff_ffff_ffff

  predicate Int64(n: int) { -MAX_INT64 - 1 <= n <= MAX_INT64 }

  function Digit(d: nat): char
    requires d < 10
  {
    '0' + d as char
  }

  predicate IsDigit(c: char) { '0' <= c <= '9' }

  function FormatNat(n: nat): (s: string)
    ensures s != "" && forall c :: c in s ==> IsDigit(c)
  {
    if n < 10 then [Digit(n)] else FormatNat(n / 10) + [Digit(n % 10)]
  }

  /** strconv.FormatInt in base 10. */
  function FormatInt(n: int): string {
    if n < 0 then "-" + FormatNat(-n) else FormatNat(n)
  }

  function ParseNat(s: string): nat
    requires forall c :: c in s ==> IsDigit(c)
  {
    if s == "" then 0
    else
      assert s[|s| - 1] in s && IsDigit(s[|s| - 1]) && forall c :: c in s[..|s| - 1] ==> c in s;
      10 * ParseNat(s[..|s| - 1]) + (s[|s| - 1] as int - '0' as int)
  }

  /** strconv.ParseInt in base 10 and 64 bits: an optional sign, then digits, in range. */
  function ParseInt(s: string): Option<int> {
    var signed := s != "" && (s[0] == '+' || s[0] == '-');
    var digits := if signed then s[1..] else s;
    if digits == "" || exists c :: c in digits && !IsDigit(c) then None
    else
      var n: int := if signed && s[0] == '-' then -(ParseNat(digits) as int) else ParseNat(digits);
      if Int64(n) then Some(n) else None
  }

  /** What parses is digits, at least one, behind a sign or none; and nothing beyond 64 bits. */
  lemma OnlyNumbersParse(s: string)
    ensures ParseInt(s).Some? ==>
              && s != "" && (IsDigit(s[0]) || ((s[0] == '+' || s[0] == '-') && |s| > 1))
              && (forall i :: 1 <= i < |s| ==> '0' <= s[i] <= '9') && Int64(ParseInt(s).value)
              && (s[0] == '-' ==> ParseInt(s).value <= 0) && (s[0] != '-' ==> ParseInt(s).value >= 0)
  {
    var digits := if s != "" && (s[0] == '+' || s[0] == '-') then s[1..] else s;
    forall i | 1 <= i < |s| && ParseInt(s).Some? ensures IsDigit(s[i]) {
      assert s[i] == digits[i - (|s| - |digits|)] && s[i] in digits;
    }
  }

  lemma {:induction false} ParseFormatNat(n: nat)
    ensures ParseNat(FormatNat(n)) == n
  {
    if n >= 10 {
      ParseFormatNat(n / 10);
      assert FormatNat(n)[..|FormatNat(n)| - 1] == FormatNat(n / 10);
    }
  }

  /** Every 64-bit integer survives being written and read. */
  lemma ParseFormatInt(n: int)
    requires -0x8000_0000_0000_0000 <= n <= 0x7fff_ffff_ffff_ffff
    ensures ParseInt(FormatInt(n)) == Some(n)
  {
    ParseFormatNat(if n < 0 then -n else n);
    if n < 0 {
      assert FormatInt(n)[1..] == FormatNat(-n);
    } else {
      assert FormatInt(n)[0] in FormatNat(n);
    }
  }

  /** Numbers are written in decimal: a digit more makes ten times as much and the digit. */
  lemma Decimal(n: nat, d: nat)
    requires d < 10 && 0 < n
    ensures FormatInt(d) == ['0' + d as char] && FormatInt(10 * n + d) == FormatInt(n) + ['0' + d as char]
    ensures FormatInt(-(n as int)) == "-" + FormatInt(n)
  {
  }

  // ---- The value of a virtual file attribute: "start,length" ----

  /** A recorded virtual file. */
  datatype Range = Range(start: int, length: int)

  function EncodeRange(r: Range): string {
    FormatInt(r.start) + "," + FormatInt(r.length)
  }

  /** FetchStartAndLen. A value that does not split in two at commas is not an error: it reads as the
      range (0, 0), because the error returned is the absent one of the attribute read. */
  function FetchStartAndLen(value: string): Option<Range> {
    var n := Find(value, ',', 0);
    if n == |value| || ',' in value[n + 1..] then Some(Range(0, 0))
    else
      var start, length := ParseInt(value[..n]), ParseInt(value[n + 1..]);
      if start.None? || length.None? then None else Some(Range(start.value, length.value))
  }

  /** GetCurrentOffset: an empty or unreadable attribute stands for the start of the file. */
  function CurrentOffset(value: string): int {
    if ParseInt(value).Some? then ParseInt(value).value else 0
  }

  predicate OneComma(value: string) {
    var n := Find(value, ',', 0);
    n < |value| && ',' !in value[n + 1..]
  }

  /** A value is refused exactly if a comma splits it into two texts of which one is no number; two numbers are the
      start and the length of the range. */
  lemma TwoPartsRead(a: string, b: string)
    requires ',' !in a && ',' !in b
    ensures FetchStartAndLen(a + "," + b) ==
            if ParseInt(a).Some? && ParseInt(b).Some? then Some(Range(ParseInt(a).value, ParseInt(b).value)) else None
  {
    var value := a + "," + b;
    assert forall k :: 0 <= k < |a| ==> value[k] == a[k];
    assert value[|a|] == ',';
    assert Find(value, ',', 0) == |a|;
    assert value[..|a|] == a && value[|a| + 1..] == b;
  }

  /** A value of three numbers is no error. */
  lemma ThreePartsReadAsEmpty()
    ensures FetchStartAndLen("12,34,56") == Some(Range(0, 0))
  {
    var value := "12,34,56";
    assert value[2] == ',' && value[5] == ',';
    assert value[3..][2] == ',';
  }

  /** What updateFile writes, FetchStartAndLen and GetCurrentOffset read back. */
  lemma FetchEncoded(r: Range)
    requires Int64(r.start) && Int64(r.length)
    ensures FetchStartAndLen(EncodeRange(r)) == Some(r)
    ensures CurrentOffset(FormatInt(r.start)) == r.start
  {
    var a, b := FormatInt(r.start), FormatInt(r.length);
    var s := EncodeRange(r);
    NoComma(r.start);
    NoComma(r.length);
    assert forall k :: 0 <= k < |a| ==> s[k] == a[k];
    assert s[|a|] == ',';
    assert Find(s, ',', 0) == |a|;
    assert s[..|a|] == a && s[|a| + 1..] == b;
    ParseFormatInt(r.start);
    ParseFormatInt(r.length);
  }

  lemma NoComma(n: int)
    ensures ',' !in FormatInt(n)
  {
    assert !IsDigit(',');
  }
}
