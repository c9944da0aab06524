/** Where a saved interesting file is written: the output directory, the
    platform path separator, the file's decimal id, an underscore and the
    file's name. The id prefix keeps every destination distinct. */
module DestinationPaths {

  type uint64 = x: nat | x < 0x1_0000_0000_0000_0000

  datatype Option<T> = None | Some(value: T)

  const Underscore: char := '_'
  const DigitChars: string := "0123456789"

  predicate IsDigit(c: char)
  {
    '0' <= c <= '9'
  }

  predicate AllDigits(s: string)
  {
    forall k :: 0 <= k < |s| ==> IsDigit(s[k])
  }

  function DigitValue(c: char): (d: nat)
    requires IsDigit(c)
    ensures d < 10 && DigitChars[d] == c
  {
    c as int - '0' as int
  }

  /** The text an output stream writes for an unsigned integer: decimal
      digits, most significant first, without leading zeros. */
  function Decimal(n: nat): (r: string)
    ensures r != [] && AllDigits(r)
    ensures r[0] == '0' ==> n == 0
  {
    if n < 10 then [DigitChars[n]] else Decimal(n / 10) + [DigitChars[n % 10]]
  }

  /** The number a string of decimal digits denotes. */
  function DigitsValue(s: string): nat
    requires AllDigits(s)
  {
    if s == [] then 0 else DigitsValue(s[..|s| - 1]) * 10 + DigitValue(s[|s| - 1])
  }

  lemma {:induction false} DecimalRoundTrip(n: nat)
    ensures DigitsValue(Decimal(n)) == n
  {
    if n >= 10 {
      DecimalRoundTrip(n / 10);
      var s := Decimal(n);
      assert s[..|s| - 1] == Decimal(n / 10);
    }
  }

  lemma DecimalInjective(m: nat, n: nat)
    requires Decimal(m) == Decimal(n)
    ensures m == n
  {
    DecimalRoundTrip(m);
    DecimalRoundTrip(n);
  }

  /** Position of the first `c` in `s`, or `|s|` when there is none. */
  function FirstIndexOf(s: string, c: char): (k: nat)
    ensures k <= |s|
    ensures k < |s| ==> s[k] == c
    ensures forall j :: 0 <= j < k ==> s[j] != c
  {
    if s == [] then 0 else if s[0] == c then 0 else 1 + FirstIndexOf(s[1..], c)
  }

  /** The string streamed into `outputPath` for one resolved file record. */
  function DestinationPath(outputDir: string, separator: char, fileId: uint64, name: string): string
  {
    outputDir + [separator] + Decimal(fileId) + [Underscore] + name
  }

  datatype Destination = Destination(fileId: nat, name: string)

  /** Reads a destination back: below the directory prefix, the text up to
      the first underscore is the id and the rest is the name. */
  function ParseDestination(outputDir: string, separator: char, path: string): Option<Destination>
  {
    var prefix := outputDir + [separator];
    if |path| < |prefix| || path[..|prefix|] != prefix then None
    else
      var rest := path[|prefix|..];
      var k := FirstIndexOf(rest, Underscore);
      if k == 0 || k == |rest| || !AllDigits(rest[..k]) then None
      else Some(Destination(DigitsValue(rest[..k]), rest[k + 1..]))
  }

  /** The underscore after the id is the first one, whatever the name holds. */
  lemma FirstUnderscoreEndsId(digits: string, name: string)
    requires AllDigits(digits)
    ensures FirstIndexOf(digits + [Underscore] + name, Underscore) == |digits|
  {
    var s := digits + [Underscore] + name;
    assert s[|digits|] == Underscore;
    assert forall j :: 0 <= j < |digits| ==> s[j] == digits[j] && s[j] != Underscore;
  }

  lemma DestinationPathRoundTrip(outputDir: string, separator: char, fileId: uint64, name: string)
    ensures ParseDestination(outputDir, separator, DestinationPath(outputDir, separator, fileId, name))
            == Some(Destination(fileId, name))
  {
    var prefix := outputDir + [separator];
    var digits := Decimal(fileId);
    var rest := digits + [Underscore] + name;
    var path := DestinationPath(outputDir, separator, fileId, name);
    assert path == prefix + rest;
    assert path[..|prefix|] == prefix;
    assert path[|prefix|..] == rest;
    FirstUnderscoreEndsId(digits, name);
    assert rest[..|digits|] == digits;
    assert rest[|digits| + 1..] == name;
    DecimalRoundTrip(fileId);
  }

  /** Two resolved records written below the same directory share a
      destination only if they have the same id and the same name. */
  lemma DestinationPathInjective(outputDir: string, separator: char,
                                 id1: uint64, name1: string, id2: uint64, name2: string)
    requires DestinationPath(outputDir, separator, id1, name1) == DestinationPath(outputDir, separator, id2, name2)
    ensures id1 == id2 && name1 == name2
  {
    DestinationPathRoundTrip(outputDir, separator, id1, name1);
    DestinationPathRoundTrip(outputDir, separator, id2, name2);
  }
}
