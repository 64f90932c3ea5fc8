/** The JavaScript string operations the relay and the dashboard handlers
    rely on, over `string` (= `seq<char>`): `startsWith`, `split` on a
    one-character separator, decimal formatting of a counter (`String(n)`,
    template literals) and `padStart`. */
module Text {

  /** `s.startsWith(prefix)`. */
  predicate StartsWith(s: string, prefix: string) {
    |prefix| <= |s| && s[..|prefix|] == prefix
  }

  /** Position of the first `c` in `s`, or `|s|` when there is none. */
  function IndexOf(s: string, c: char): (i: nat)
    ensures i <= |s|
    ensures i < |s| ==> s[i] == c
    ensures forall j :: 0 <= j < i ==> s[j] != c
  {
    if |s| == 0 then 0
    else if s[0] == c then 0
    else 1 + IndexOf(s[1..], c)
  }

  /** `parts.join(sep)`. */
  function Join(parts: seq<string>, sep: char): string
  {
    if |parts| == 0 then ""
    else if |parts| == 1 then parts[0]
    else parts[0] + [sep] + Join(parts[1..], sep)
  }

  /** `s.split(sep)` for a one-character separator: the pieces between
      consecutive separators, always at least one (`"".split(":")` is
      `[""]`), none containing the separator, and joining them back gives
      `s` again. */
  function Split(s: string, sep: char): (parts: seq<string>)
    ensures |parts| >= 1
    ensures forall k :: 0 <= k < |parts| ==> sep !in parts[k]
    ensures |parts| == 1 <==> sep !in s
    ensures Join(parts, sep) == s
    decreases |s|
  {
    var i := IndexOf(s, sep);
    if i == |s| then
      [s]
    else
      var rest := Split(s[i + 1..], sep);
      assert s == s[..i] + [sep] + s[i + 1..];
      [s[..i]] + rest
  }

  /** The first piece of `s.split(sep)` is everything before the first
      separator (all of `s` if there is none). */
  lemma SplitFirst(s: string, sep: char)
    ensures Split(s, sep)[0] == s[..IndexOf(s, sep)]
  {
  }

  /** Splitting a text that begins with `head` and a separator: the second
      piece is the part of the remainder up to its first separator. This is
      what `message.split(':')[1]` reads after a tag without colons. */
  lemma {:induction false} SplitAfterTag(head: string, rest: string, sep: char)
    requires sep !in head
    ensures |Split(head + [sep] + rest, sep)| >= 2
    ensures Split(head + [sep] + rest, sep)[1] == rest[..IndexOf(rest, sep)]
  {
    var s := head + [sep] + rest;
    assert IndexOf(s, sep) == |head| by {
      assert s[|head|] == sep;
      assert forall j :: 0 <= j < |head| ==> s[j] == head[j];
    }
    assert s[|head| + 1..] == rest;
    SplitFirst(rest, sep);
  }

  /** Splitting a text that begins with a separator-free `head` and a
      separator yields `head` followed by the pieces of the remainder. */
  lemma SplitCons(head: string, rest: string, sep: char)
    requires sep !in head
    ensures Split(head + [sep] + rest, sep) == [head] + Split(rest, sep)
  {
    var s := head + [sep] + rest;
    assert IndexOf(s, sep) == |head| by {
      assert s[|head|] == sep;
      assert forall j :: 0 <= j < |head| ==> s[j] == head[j];
    }
    assert s[..|head|] == head;
    assert s[|head| + 1..] == rest;
  }

  /** `split` undoes `join` when no piece contains the separator. */
  lemma {:induction false} SplitJoin(parts: seq<string>, sep: char)
    requires |parts| >= 1
    requires forall k :: 0 <= k < |parts| ==> sep !in parts[k]
    ensures Split(Join(parts, sep), sep) == parts
    decreases |parts|
  {
    if |parts| == 1 {
      assert Join(parts, sep) == parts[0];
    } else {
      SplitJoin(parts[1..], sep);
      SplitCons(parts[0], Join(parts[1..], sep), sep);
      assert parts == [parts[0]] + parts[1..];
    }
  }

  // ---------------------------------------------------------------------
  // Decimal digits

  predicate IsDigit(c: char) {
    '0' <= c <= '9'
  }

  function DigitChar(d: nat): (c: char)
    requires d < 10
    ensures IsDigit(c)
  {
    (48 + d) as char
  }

  function DigitValue(c: char): nat {
    if IsDigit(c) then (c as int - 48) as nat else 0
  }

  /** The value of a string of decimal digits, read most significant first;
      leading zeros add nothing. */
  function ParseDecimal(s: string): nat {
    if |s| == 0 then 0
    else ParseDecimal(s[..|s| - 1]) * 10 + DigitValue(s[|s| - 1])
  }

  /** `String(n)` for a non-negative integer: the shortest decimal numeral,
      read back by `ParseDecimal`. */
  function NatToDecimal(n: nat): (s: string)
    ensures |s| >= 1
    ensures forall i :: 0 <= i < |s| ==> IsDigit(s[i])
    ensures ParseDecimal(s) == n
    ensures |s| > 1 ==> s[0] != '0'
  {
    if n < 10 then
      [DigitChar(n)]
    else
      var prefix := NatToDecimal(n / 10);
      var s := prefix + [DigitChar(n % 10)];
      assert s[..|s| - 1] == prefix;
      s
  }

  /** Distinct counters print as distinct numerals. */
  lemma NatToDecimalInjective(m: nat, n: nat)
    ensures NatToDecimal(m) == NatToDecimal(n) ==> m == n
  {
  }

  /** `c` repeated `n` times. */
  function Repeat(c: char, n: nat): (r: string)
    ensures |r| == n
    ensures forall i :: 0 <= i < n ==> r[i] == c
  {
    seq(n, _ => c)
  }

  /** `s.padStart(width, fill)`: `s` unchanged when it is already `width`
      long or longer, otherwise `s` preceded by enough `fill` characters to
      make it exactly `width` long. */
  function PadStart(s: string, width: nat, fill: char): (r: string)
    ensures |r| == if |s| >= width then |s| else width
    ensures |r| >= |s| && r[|r| - |s|..] == s
    ensures forall i :: 0 <= i < |r| - |s| ==> r[i] == fill
  {
    if |s| >= width then s else Repeat(fill, width - |s|) + s
  }

  /** Padding a numeral with zeros leaves only digits. */
  lemma PaddedDigits(s: string, width: nat)
    requires forall i :: 0 <= i < |s| ==> IsDigit(s[i])
    ensures forall i :: 0 <= i < |PadStart(s, width, '0')| ==> IsDigit(PadStart(s, width, '0')[i])
  {
    if |s| < width {
      var z := Repeat('0', width - |s|);
      assert PadStart(s, width, '0') == z + s;
    }
  }

  /** Leading zeros do not change a numeral's value. */
  lemma {:induction false} ParseLeadingZeros(k: nat, s: string)
    ensures ParseDecimal(Repeat('0', k) + s) == ParseDecimal(s)
    decreases |s|
  {
    var z := Repeat('0', k);
    if |s| == 0 {
      assert z + s == z;
      ParseZeros(k);
    } else {
      var t := z + s;
      assert t[..|t| - 1] == z + s[..|s| - 1];
      assert t[|t| - 1] == s[|s| - 1];
      ParseLeadingZeros(k, s[..|s| - 1]);
    }
  }

  lemma {:induction false} ParseZeros(k: nat)
    ensures ParseDecimal(Repeat('0', k)) == 0
  {
    if k > 0 {
      assert Repeat('0', k)[..k - 1] == Repeat('0', k - 1);
      ParseZeros(k - 1);
    }
  }

  /** Zero-padding a counter keeps it readable: the padded numeral still
      denotes the counter. */
  lemma PaddedDecimalValue(n: nat, width: nat)
    ensures ParseDecimal(PadStart(NatToDecimal(n), width, '0')) == n
  {
    var s := NatToDecimal(n);
    if |s| < width {
      ParseLeadingZeros(width - |s|, s);
    }
  }
}
