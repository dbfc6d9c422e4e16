/**
 * The JavaScript string operations the core uses, over `string` (a sequence of characters):
 * `trim`, `split` with a non-empty separator, `join`, `slice` on arrays, decimal rendering of
 * a number and `Buffer.toString('hex')`.
 */
module Text {
  import opened Wrappers

  /** White space and line terminators as JavaScript's `trim` and the regular expression `\s` know them. */
  predicate IsJsSpace(c: char) {
    c == '\t' || c == '\n' || c == '\U{B}' || c == '\U{C}' || c == '\r' || c == ' '
    || c == '\U{A0}' || c == '\U{1680}' || ('\U{2000}' <= c <= '\U{200A}')
    || c == '\U{2028}' || c == '\U{2029}' || c == '\U{202F}' || c == '\U{205F}'
    || c == '\U{3000}' || c == '\U{FEFF}'
  }

  /** A line terminator: what the regular expression `.` does not match. */
  predicate IsLineTerminator(c: char) {
    c == '\n' || c == '\r' || c == '\U{2028}' || c == '\U{2029}'
  }

  /** A string the regular expression `.` matches throughout. */
  predicate NoLineTerminator(s: string) {
    forall i :: 0 <= i < |s| ==> !IsLineTerminator(s[i])
  }

  /** `s` with its leading white space removed. */
  function TrimStart(s: string): (r: string)
    ensures |r| <= |s| && r == s[|s| - |r|..]
    ensures forall i :: 0 <= i < |s| - |r| ==> IsJsSpace(s[i])
    ensures r == [] || !IsJsSpace(r[0])
  {
    if s != [] && IsJsSpace(s[0]) then TrimStart(s[1..]) else s
  }

  /** `s` with its trailing white space removed. */
  function TrimEnd(s: string): (r: string)
    ensures |r| <= |s| && r == s[..|r|]
    ensures forall i :: |r| <= i < |s| ==> IsJsSpace(s[i])
    ensures r == [] || !IsJsSpace(r[|r| - 1])
  {
    if s != [] && IsJsSpace(s[|s| - 1]) then TrimEnd(s[..|s| - 1]) else s
  }

  /** `s.trim()`: `s` with white space removed at both ends. */
  function Trim(s: string): (r: string)
    ensures r == [] || (!IsJsSpace(r[0]) && !IsJsSpace(r[|r| - 1]))
  {
    TrimEnd(TrimStart(s))
  }

  /** A string with no white space at either end trims to itself. */
  lemma {:induction false} TrimUnpadded(s: string)
    requires s == [] || (!IsJsSpace(s[0]) && !IsJsSpace(s[|s| - 1]))
    ensures Trim(s) == s
  {
  }

  /** A string trims to nothing exactly when it is all white space. */
  lemma {:induction false} TrimEmptyIffAllSpace(s: string)
    ensures Trim(s) == [] <==> forall i :: 0 <= i < |s| ==> IsJsSpace(s[i])
  {
    var t := TrimStart(s);
    if Trim(s) == [] {
      assert |t| == 0;
    } else {
      assert !IsJsSpace(s[|s| - |t|]);
    }
  }

  /** `sep` occurs in `s` at index `i`. */
  predicate OccursAt(s: string, sep: string, i: nat) {
    i + |sep| <= |s| && s[i..i + |sep|] == sep
  }

  /** `s.indexOf(sep, from)`: the first occurrence of `sep` at or after `from`. */
  function IndexOfFrom(s: string, sep: string, from: nat): (r: Option<nat>)
    requires sep != []
    ensures r.Some? ==> from <= r.value && OccursAt(s, sep, r.value)
    ensures forall i :: from <= i && (r.None? || i < r.value) ==> !OccursAt(s, sep, i)
    decreases |s| - from
  {
    if from + |sep| > |s| then None
    else if s[from..from + |sep|] == sep then Some(from)
    else IndexOfFrom(s, sep, from + 1)
  }

  /** `s.split(sep)` for a non-empty separator: the pieces between the occurrences of `sep`, left to right. */
  function Split(s: string, sep: string): (r: seq<string>)
    requires sep != []
    ensures |r| >= 1
    decreases |s|
  {
    match IndexOfFrom(s, sep, 0)
    case None => [s]
    case Some(i) => [s[..i]] + Split(s[i + |sep|..], sep)
  }

  /** `parts.join(sep)`. */
  function Join(parts: seq<string>, sep: string): string {
    if parts == [] then ""
    else if |parts| == 1 then parts[0]
    else parts[0] + sep + Join(parts[1..], sep)
  }

  /** `parts.join('')`. */
  function Concat(parts: seq<string>): string {
    if parts == [] then "" else parts[0] + Concat(parts[1..])
  }

  /** Joining the pieces of a split with the same separator gives back the string. */
  lemma {:induction false} JoinSplit(s: string, sep: string)
    requires sep != []
    ensures Join(Split(s, sep), sep) == s
    decreases |s|
  {
    match IndexOfFrom(s, sep, 0)
    case None =>
    case Some(i) =>
      var rest := s[i + |sep|..];
      var tail := Split(rest, sep);
      JoinSplit(rest, sep);
      var parts := [s[..i]] + tail;
      assert Split(s, sep) == parts;
      assert parts[0] == s[..i] && parts[1..] == tail;
      assert Join(parts, sep) == s[..i] + sep + Join(tail, sep);
      assert s == s[..i] + s[i..i + |sep|] + rest;
  }

  /** No piece of a split on a one-character separator contains that character. */
  lemma {:induction false} SplitPiecesAvoid(s: string, c: char)
    ensures forall k :: 0 <= k < |Split(s, [c])| ==> c !in Split(s, [c])[k]
    decreases |s|
  {
    match IndexOfFrom(s, [c], 0)
    case None =>
      forall j | 0 <= j < |s| ensures s[j] != c {
        assert !OccursAt(s, [c], j);
        assert s[j..j + 1] == [s[j]];
      }
    case Some(i) =>
      SplitPiecesAvoid(s[i + 1..], c);
      forall j | 0 <= j < i ensures s[j] != c {
        assert !OccursAt(s, [c], j);
        assert s[j..j + 1] == [s[j]];
      }
  }

  /** Joining the first pieces of a list gives a prefix of joining all of them. */
  lemma {:induction false} JoinTakeIsPrefix(parts: seq<string>, sep: string, k: nat)
    ensures Join(parts[..if k <= |parts| then k else |parts|], sep) <= Join(parts, sep)
  {
    var n := if k <= |parts| then k else |parts|;
    if n == 0 {
    } else if n == |parts| {
      assert parts[..n] == parts;
    } else if n == 1 {
      assert parts[..1] == [parts[0]];
    } else {
      JoinTakeIsPrefix(parts[1..], sep, k - 1);
      assert parts[..n][1..] == parts[1..][..n - 1];
    }
  }

  /** The first occurrence of a one-character separator is its first position. */
  lemma {:induction false} IndexOfFirstChar(s: string, c: char, from: nat, i: nat)
    requires from <= i < |s| && s[i] == c
    requires forall j :: from <= j < i ==> s[j] != c
    ensures IndexOfFrom(s, [c], from) == Some(i)
    decreases i - from
  {
    if from < i {
      assert s[from..from + 1] == [s[from]];
      IndexOfFirstChar(s, c, from + 1, i);
    } else {
      assert s[from..from + 1] == [c];
    }
  }

  /** A string without the separator character has no occurrence of it. */
  lemma {:induction false} IndexOfAbsentChar(s: string, c: char, from: nat)
    requires forall j :: from <= j < |s| ==> s[j] != c
    ensures IndexOfFrom(s, [c], from) == None
    decreases |s| - from
  {
    if from + 1 <= |s| {
      assert s[from..from + 1] == [s[from]];
      IndexOfAbsentChar(s, c, from + 1);
    }
  }

  /** Splitting a join of pieces free of the one-character separator gives the pieces back. */
  lemma {:induction false} SplitJoin(parts: seq<string>, c: char)
    requires parts != []
    requires forall k :: 0 <= k < |parts| ==> c !in parts[k]
    ensures Split(Join(parts, [c]), [c]) == parts
  {
    if |parts| == 1 {
      IndexOfAbsentChar(parts[0], c, 0);
    } else {
      var s := Join(parts, [c]);
      var rest := Join(parts[1..], [c]);
      assert s == parts[0] + [c] + rest;
      IndexOfFirstChar(s, c, 0, |parts[0]|);
      assert s[..|parts[0]|] == parts[0];
      assert s[|parts[0]| + 1..] == rest;
      SplitJoin(parts[1..], c);
      assert parts == [parts[0]] + parts[1..];
    }
  }

  /** `sep` does not occur in `p + sep` before the appended copy: the piece cannot run into the separator. */
  predicate NoEarlySep(p: string, sep: string) {
    forall i :: 0 <= i < |p| ==> !OccursAt(p + sep, sep, i)
  }

  /** A piece that does not run into the separator contains no occurrence of it. */
  lemma {:induction false} NoSepInPiece(p: string, sep: string)
    requires sep != [] && NoEarlySep(p, sep)
    ensures IndexOfFrom(p, sep, 0).None?
  {
    var r := IndexOfFrom(p, sep, 0);
    if r.Some? {
      var i := r.value;
      assert p[i..i + |sep|] == sep;
      assert (p + sep)[i..i + |sep|] == p[i..i + |sep|];
      assert OccursAt(p + sep, sep, i);
    }
  }

  /** After a piece that does not run into the separator, the first occurrence is the separator that follows it. */
  lemma {:induction false} FirstSepAfterPiece(p: string, sep: string, rest: string)
    requires sep != [] && NoEarlySep(p, sep)
    ensures IndexOfFrom(p + sep + rest, sep, 0) == Some(|p|)
  {
    var s := p + sep + rest;
    assert s[|p|..|p| + |sep|] == sep;
    assert OccursAt(s, sep, |p|);
    var r := IndexOfFrom(s, sep, 0);
    if r.Some? && r.value < |p| {
      var i := r.value;
      assert s[i..i + |sep|] == (p + sep)[i..i + |sep|];
      assert OccursAt(p + sep, sep, i);
    }
  }

  /** Splitting a join of pieces that do not run into the separator gives the pieces back. */
  lemma {:induction false} SplitJoinSeparated(parts: seq<string>, sep: string)
    requires sep != [] && parts != []
    requires forall k :: 0 <= k < |parts| ==> NoEarlySep(parts[k], sep)
    ensures Split(Join(parts, sep), sep) == parts
  {
    var p := parts[0];
    assert NoEarlySep(p, sep);
    if |parts| == 1 {
      NoSepInPiece(p, sep);
    } else {
      var rest := Join(parts[1..], sep);
      var s := Join(parts, sep);
      assert s == p + sep + rest;
      FirstSepAfterPiece(p, sep, rest);
      assert s[..|p|] == p;
      assert s[|p| + |sep|..] == rest;
      SplitJoinSeparated(parts[1..], sep);
      assert parts == [p] + parts[1..];
    }
  }

  /** A join of pieces and a separator drawn from a character class stays in that class. */
  lemma {:induction false} JoinWithin(parts: seq<string>, sep: string, P: char -> bool)
    requires forall i :: 0 <= i < |sep| ==> P(sep[i])
    requires forall k, i :: 0 <= k < |parts| && 0 <= i < |parts[k]| ==> P(parts[k][i])
    ensures forall i :: 0 <= i < |Join(parts, sep)| ==> P(Join(parts, sep)[i])
  {
    if |parts| > 1 {
      JoinWithin(parts[1..], sep, P);
      var rest := Join(parts[1..], sep);
      assert Join(parts, sep) == parts[0] + sep + rest;
      forall i | 0 <= i < |Join(parts, sep)| ensures P(Join(parts, sep)[i]) {
        if i < |parts[0]| {
        } else if i < |parts[0]| + |sep| {
          assert Join(parts, sep)[i] == sep[i - |parts[0]|];
        } else {
          assert Join(parts, sep)[i] == rest[i - |parts[0]| - |sep|];
          assert rest[i - |parts[0]| - |sep|] == Join(parts[1..], sep)[i - |parts[0]| - |sep|];
        }
      }
    }
  }

  /** Every piece of a split consists of characters of the split string. */
  lemma {:induction false} SplitPiecesWithin(s: string, sep: string, P: char -> bool)
    requires sep != []
    requires forall i :: 0 <= i < |s| ==> P(s[i])
    ensures forall k, i :: 0 <= k < |Split(s, sep)| && 0 <= i < |Split(s, sep)[k]| ==> P(Split(s, sep)[k][i])
    decreases |s|
  {
    match IndexOfFrom(s, sep, 0)
    case None =>
    case Some(i) =>
      SplitPiecesWithin(s[i + |sep|..], sep, P);
      var parts := Split(s, sep);
      assert parts == [s[..i]] + Split(s[i + |sep|..], sep);
      forall k, j | 0 <= k < |parts| && 0 <= j < |parts[k]| ensures P(parts[k][j]) {
        if k > 0 {
          assert parts[k] == Split(s[i + |sep|..], sep)[k - 1];
        }
      }
  }

  /** An array's `slice(start, end)` for non-negative bounds: clamped to the array. */
  function Slice<T>(xs: seq<T>, start: nat, end: nat): (r: seq<T>)
    ensures |r| <= |xs|
    ensures start <= end <= |xs| ==> r == xs[start..end]
  {
    var e := if end <= |xs| then end else |xs|;
    var b := if start <= e then start else e;
    xs[b..e]
  }

  /** The decimal digit for `d < 10`. */
  function DigitChar(d: nat): (c: char)
    requires d < 10
    ensures '0' <= c <= '9'
  {
    "0123456789"[d]
  }

  /** The decimal rendering of a natural number, as template literals write it. */
  function NatToString(n: nat): (r: string)
    ensures r != []
    ensures forall i :: 0 <= i < |r| ==> '0' <= r[i] <= '9'
    ensures r[0] == '0' ==> n == 0
  {
    if n < 10 then [DigitChar(n)] else NatToString(n / 10) + [DigitChar(n % 10)]
  }

  /** The number a string of decimal digits denotes, read most significant digit first. */
  function DecimalValue(s: string): int
    decreases |s|
  {
    if s == [] then 0 else 10 * DecimalValue(s[..|s| - 1]) + (s[|s| - 1] as int - '0' as int)
  }

  /** The rendering of `n` reads back as `n`. */
  lemma {:induction false} DecimalValueOfNatToString(n: nat)
    ensures DecimalValue(NatToString(n)) == n
  {
    var r := NatToString(n);
    if n >= 10 {
      DecimalValueOfNatToString(n / 10);
      assert r[..|r| - 1] == NatToString(n / 10);
      assert "0123456789"[n % 10] as int - '0' as int == n % 10;
    } else {
      assert r[..0] == [];
      assert "0123456789"[n] as int - '0' as int == n;
    }
  }

  /** The lower-case hexadecimal digit for `d < 16`. */
  function HexChar(d: nat): (c: char)
    requires d < 16
  {
    "0123456789abcdef"[d]
  }

  /** The value of a lower-case hexadecimal digit. */
  function HexValue(c: char): (r: Option<nat>)
    ensures r.Some? ==> r.value < 16
  {
    if '0' <= c <= '9' then Some(c as int - '0' as int)
    else if 'a' <= c <= 'f' then Some(c as int - 'a' as int + 10)
    else None
  }

  lemma HexCharValue(d: nat)
    requires d < 16
    ensures HexValue(HexChar(d)) == Some(d)
  {
  }

  /** `buffer.toString('hex')`: two lower-case hexadecimal digits per byte. */
  function Hex(bytes: seq<bv8>): (r: string)
    ensures |r| == 2 * |bytes|
  {
    if bytes == [] then ""
    else [HexChar(bytes[0] as int / 16), HexChar(bytes[0] as int % 16)] + Hex(bytes[1..])
  }

  /** Reads back a hexadecimal rendering; the inverse of `Hex`. */
  function ParseHex(s: string): Option<seq<bv8>>
    decreases |s|
  {
    if s == [] then Some([])
    else if |s| == 1 then None
    else
      var hi, lo, rest := HexValue(s[0]), HexValue(s[1]), ParseHex(s[2..]);
      if hi.Some? && lo.Some? && rest.Some? then Some([ByteOf(hi.value, lo.value)] + rest.value)
      else None
  }

  /** The byte with high digit `hi` and low digit `lo`. */
  function ByteOf(hi: nat, lo: nat): bv8
    requires hi < 16 && lo < 16
  {
    (hi * 16 + lo) as bv8
  }

  lemma ByteOfDigits(b: bv8)
    ensures ByteOf(b as int / 16, b as int % 16) == b
  {
    var n := b as int;
    assert (n / 16) * 16 + n % 16 == n;
  }

  /** Hex rendering loses nothing: it can be read back. */
  lemma {:induction false} ParseHexOfHex(bytes: seq<bv8>)
    ensures ParseHex(Hex(bytes)) == Some(bytes)
  {
    if bytes != [] {
      var h := Hex(bytes);
      HexHead(bytes);
      ParseHexOfHex(bytes[1..]);
      assert ParseHex(h) == Some([bytes[0]] + bytes[1..]);
      assert [bytes[0]] + bytes[1..] == bytes;
    }
  }

  /** The first two digits of a rendering read back as its first byte. */
  lemma {:induction false} HexHead(bytes: seq<bv8>)
    requires bytes != []
    ensures |Hex(bytes)| >= 2 && Hex(bytes)[2..] == Hex(bytes[1..])
    ensures HexValue(Hex(bytes)[0]).Some? && HexValue(Hex(bytes)[1]).Some?
    ensures ByteOf(HexValue(Hex(bytes)[0]).value, HexValue(Hex(bytes)[1]).value) == bytes[0]
  {
    var b := bytes[0] as int;
    var h := Hex(bytes);
    HexCharValue(b / 16);
    HexCharValue(b % 16);
    assert h == [HexChar(b / 16), HexChar(b % 16)] + Hex(bytes[1..]);
    ByteOfDigits(bytes[0]);
  }

  /** So different byte strings always give different renderings. */
  lemma {:induction false} HexInjective(a: seq<bv8>, b: seq<bv8>)
    requires Hex(a) == Hex(b)
    ensures a == b
  {
    ParseHexOfHex(a);
    ParseHexOfHex(b);
  }
}
