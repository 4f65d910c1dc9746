/** FIX 4.4 text: fields, checksum, sealed messages, and where the end-of-message mark can occur. */
module FixText {
  import opened Decimal

  const SOH := '\U{0001}'
  const MARK := "10="

  datatype FixField = FixField(tag: nat, value: string)

  // ---- Numbers ----

  predicate AllDigits(s: string) { forall i :: 0 <= i < |s| ==> '0' <= s[i] <= '9' }

  function Printed(n: nat): (s: string)
    ensures |s| == |Digits(n)| && AllDigits(s)
  {
    seq(|Digits(n)|, i requires 0 <= i < |Digits(n)| => (48 + (Digits(n)[i] as int)) as char)
  }

  function PrintedInt(n: int): string {
    if n < 0 then "-" + Printed(-n) else Printed(n)
  }

  /** `%03u` of a value below 1000. */
  function ThreeDigits(n: nat): (s: string)
    requires n < 1000
    ensures |s| == 3 && AllDigits(s)
  {
    [(48 + n / 100) as char, (48 + n / 10 % 10) as char, (48 + n % 10) as char]
  }

  /** The number a digit string stands for, most significant digit first. */
  function NumberOf(s: string): int {
    if s == "" then 0 else 10 * NumberOf(s[..|s| - 1]) + (s[|s| - 1] as int - 48)
  }

  lemma {:induction false} PrintedReads(n: nat)
    ensures NumberOf(Printed(n)) == n
  {
    var p := Printed(n);
    if n < 10 {
      assert Digits(n) == [n] && p[..0] == "";
    } else {
      PrintedReads(n / 10);
      assert Digits(n) == Digits(n / 10) + [n % 10];
      assert p[..|p| - 1] == Printed(n / 10);
    }
  }

  /** A printed number reads as itself: digits, after a minus sign when it is negative. */
  lemma PrintedIntReads(n: int)
    ensures n >= 0 ==> AllDigits(PrintedInt(n)) && NumberOf(PrintedInt(n)) == n
    ensures n < 0 ==> PrintedInt(n)[0] == '-' && AllDigits(PrintedInt(n)[1..]) && NumberOf(PrintedInt(n)[1..]) == -n
  {
    hide Printed, NumberOf;
    if n >= 0 {
      PrintedReads(n);
    } else {
      PrintedReads(-n);
      assert PrintedInt(n)[1..] == Printed(-n);
    }
  }

  lemma ThreeDigitsRead(n: nat)
    requires n < 1000
    ensures NumberOf(ThreeDigits(n)) == n
  {
    hide NumberOf;
    var a, b, c := (48 + n / 100) as char, (48 + n / 10 % 10) as char, (48 + n % 10) as char;
    NumberPush("", a);
    NumberPush([a], b);
    NumberPush([a, b], c);
    assert "" + [a] == [a] && [a] + [b] == [a, b] && [a, b] + [c] == ThreeDigits(n);
    assert n / 10 == 10 * (n / 100) + n / 10 % 10;
  }

  lemma NumberPush(s: string, c: char)
    ensures NumberOf(s + [c]) == 10 * NumberOf(s) + (c as int - 48)
    ensures NumberOf("") == 0
  {}

  // ---- Fields and messages ----

  function FieldText(f: FixField): string { Printed(f.tag) + "=" + f.value + [SOH] }

  function Text(fields: seq<FixField>): string {
    if fields == [] then "" else FieldText(fields[0]) + Text(fields[1..])
  }

  function ByteSum(msg: string): nat {
    if msg == "" then 0 else ByteSum(msg[..|msg| - 1]) + (msg[|msg| - 1] as int) % 256
  }

  /** The CheckSum value: the sum of all bytes modulo 256, as three digits. */
  function CheckSum(msg: string): string { ThreeDigits(ByteSum(msg) % 256) }

  function WithCheckSum(fields: seq<FixField>): seq<FixField> { fields + [FixField(10, CheckSum(Text(fields)))] }

  function Sealed(fields: seq<FixField>): string { Text(WithCheckSum(fields)) }

  lemma {:induction false} TextAppend(a: seq<FixField>, b: seq<FixField>)
    ensures Text(a + b) == Text(a) + Text(b)
  {
    if a == [] {
      assert a + b == b;
    } else {
      assert (a + b)[1..] == a[1..] + b;
      TextAppend(a[1..], b);
    }
  }

  lemma {:induction false} TextEndsInSoh(fields: seq<FixField>)
    requires fields != []
    ensures Text(fields) != "" && Text(fields)[|Text(fields)| - 1] == SOH
  {
    if |fields| > 1 {
      TextEndsInSoh(fields[1..]);
    } else {
      assert Text(fields) == FieldText(fields[0]);
    }
  }

  lemma PrintedTen()
    ensures Printed(10) == "10"
  {}

  lemma SealedIs(fields: seq<FixField>)
    ensures Sealed(fields) == Text(fields) + (MARK + CheckSum(Text(fields)) + [SOH])
  {
    hide CheckSum, Printed, FieldText;
    var sum := FixField(10, CheckSum(Text(fields)));
    TextAppend(fields, [sum]);
    PrintedTen();
    assert Text([sum]) == FieldText(sum) + "";
    assert FieldText(sum) == MARK + CheckSum(Text(fields)) + [SOH] by { FieldTextIs(sum); }
  }

  lemma FieldTextIs(f: FixField)
    ensures FieldText(f) == Printed(f.tag) + "=" + f.value + [SOH]
  {}

  // ---- What the checksum says ----

  /** The sum of the bytes of a text, by its parts. */
  lemma {:induction false} ByteSumParts(a: string, b: string)
    ensures ByteSum("") == 0 && forall c: char :: ByteSum([c]) == (c as int) % 256
    ensures ByteSum(a + b) == ByteSum(a) + ByteSum(b)
  {
    forall c: char ensures ByteSum([c]) == (c as int) % 256 {
      assert [c][..0] == "";
    }
    if b == "" {
      assert a + b == a;
    } else {
      assert (a + b)[..|a + b| - 1] == a + b[..|b| - 1];
      ByteSumParts(a, b[..|b| - 1]);
    }
  }

  /** The three digits of the checksum stand for the sum of all bytes modulo 256. */
  lemma CheckSumReads(msg: string)
    ensures |CheckSum(msg)| == 3 && AllDigits(CheckSum(msg)) && NumberOf(CheckSum(msg)) == ByteSum(msg) % 256
  {
    hide ThreeDigits, ByteSum;
    ThreeDigitsRead(ByteSum(msg) % 256);
  }

  // ---- The checksum notices any one byte ----

  lemma {:induction false} ByteSumReplace(msg: string, i: nat, c: char)
    requires i < |msg|
    ensures ByteSum(msg[i := c]) == ByteSum(msg) - (msg[i] as int) % 256 + (c as int) % 256
  {
    var init, last := msg[..|msg| - 1], msg[|msg| - 1];
    if i == |msg| - 1 {
      assert msg[i := c][..|msg| - 1] == init;
    } else {
      assert msg[i := c][..|msg| - 1] == init[i := c];
      ByteSumReplace(init, i, c);
    }
  }

  lemma ThreeDigitsInjective(m: nat, n: nat)
    requires m < 256 && n < 256 && ThreeDigits(m) == ThreeDigits(n)
    ensures m == n
  {}

  lemma ModDiffers(s: nat, t: nat)
    requires s != t && -256 < s - t < 256
    ensures s % 256 != t % 256
  {}

  /** Replacing any one byte by a different one changes the checksum. */
  lemma CheckSumDetects(msg: string, i: nat, c: char)
    requires i < |msg| && c as int < 256 && msg[i] as int < 256 && c != msg[i]
    ensures CheckSum(msg[i := c]) != CheckSum(msg)
  {
    hide ByteSum, ThreeDigits;
    ByteSumReplace(msg, i, c);
    var s, t := ByteSum(msg), ByteSum(msg[i := c]);
    ModDiffers(s, t);
    if CheckSum(msg[i := c]) == CheckSum(msg) {
      ThreeDigitsInjective(t % 256, s % 256);
    }
  }

  // ---- std::string::find ----

  predicate At(s: string, needle: string, i: int) {
    0 <= i && i + |needle| <= |s| && s[i..i + |needle|] == needle
  }

  /** The first occurrence at or after `from`, or -1. */
  function Find(s: string, needle: string, from: nat): (r: int)
    ensures r == -1 || (from <= r && At(s, needle, r))
    ensures forall i :: from <= i && (r == -1 || i < r) ==> !At(s, needle, i)
    decreases |s| - from
  {
    if from + |needle| > |s| then -1
    else if At(s, needle, from) then from
    else Find(s, needle, from + 1)
  }

  predicate Occurs(s: string, needle: string) { Find(s, needle, 0) != -1 }

  // ---- Where the mark can occur ----

  /** A field that puts no end-of-message mark in the text. */
  predicate CleanField(f: FixField) { f.tag % 100 != 10 && !Occurs(f.value, MARK) }

  predicate Clean(fields: seq<FixField>) { forall f <- fields :: CleanField(f) }

  lemma LastTwoDigits(n: nat)
    ensures n % 100 == 10 * (n / 10 % 10) + n % 10
  {}

  lemma LastDigit(n: nat)
    ensures Digits(n)[|Digits(n)| - 1] == n % 10
    ensures n >= 10 ==> Digits(n) == Digits(n / 10) + [n % 10]
  {}

  lemma LastTwoChars(n: nat)
    requires n >= 10
    ensures var p := Printed(n);
      |p| >= 2 && p[|p| - 2..] == [(48 + n / 10 % 10) as char, (48 + n % 10) as char]
  {
    hide Digits;
    LastDigit(n);
    LastDigit(n / 10);
    var d, e, p := Digits(n), Digits(n / 10), Printed(n);
    assert d[|d| - 2] == e[|e| - 1];
    assert p[|p| - 2..] == [p[|p| - 2], p[|p| - 1]];
  }

  lemma TagEndsInTen(n: nat)
    ensures (|Printed(n)| >= 2 && Printed(n)[|Printed(n)| - 2..] == "10") <==> n % 100 == 10
  {
    if n >= 10 {
      hide Printed;
      LastTwoChars(n);
      LastTwoDigits(n);
      var a, b := (48 + n / 10 % 10) as char, (48 + n % 10) as char;
      assert [a, b][0] == a && [a, b][1] == b;
    }
  }

  lemma FieldAt(f: FixField, rest: string, j: nat)
    requires j < |FieldText(f)|
    ensures var p, v := Printed(f.tag), f.value;
      (FieldText(f) + rest)[j] == if j < |p| then p[j] else if j == |p| then '='
                                  else if j - |p| - 1 < |v| then v[j - |p| - 1] else SOH
  {}

  lemma ThreeChars(s: string, i: nat)
    requires At(s, MARK, i)
    ensures s[i] == '1' && s[i + 1] == '0' && s[i + 2] == '='
  {}

  /** A mark inside a field's text, followed by anything, comes from its tag or its value. */
  lemma MarkInField(f: FixField, rest: string, i: nat)
    requires At(FieldText(f) + rest, MARK, i) && i < |FieldText(f)|
    ensures !CleanField(f)
  {
    hide Find, Printed, FieldText;
    var s, p, v := FieldText(f) + rest, Printed(f.tag), f.value;
    assert |FieldText(f)| == |p| + 2 + |v| by { FieldLength(f); }
    ThreeChars(s, i);
    FieldAt(f, rest, i);
    if i + 1 < |FieldText(f)| { FieldAt(f, rest, i + 1); }
    if i + 2 < |FieldText(f)| { FieldAt(f, rest, i + 2); }
    if i + 2 == |p| {
      assert p[i..] == [p[i], p[i + 1]];
      TagEndsInTen(f.tag);
    } else {
      var j := i - |p| - 1;
      assert v[j..j + 3] == [v[j], v[j + 1], v[j + 2]];
      assert At(v, MARK, j);
    }
  }

  lemma FieldLength(f: FixField)
    ensures |FieldText(f)| == |Printed(f.tag)| + 2 + |f.value|
  {}

  /** The converse: an unclean field does put a mark in the text. */
  lemma UncleanMarks(f: FixField, rest: string) returns (i: nat)
    requires !CleanField(f)
    ensures i + 3 < |FieldText(f)| && At(FieldText(f) + rest, MARK, i)
  {
    hide Printed, Find;
    var p, v := Printed(f.tag), f.value;
    if f.tag % 100 == 10 {
      TagEndsInTen(f.tag);
      i := |p| - 2;
      assert FieldText(f) + rest == p[..i] + ("10" + "=" + v + [SOH] + rest);
      MarkAfter(p[..i], v + [SOH] + rest);
    } else {
      var j := Find(v, MARK, 0);
      i := |p| + 1 + j;
      assert v == v[..j] + MARK + v[j + 3..];
      assert FieldText(f) + rest == (p + "=" + v[..j]) + (MARK + v[j + 3..] + [SOH] + rest);
      MarkAfter(p + "=" + v[..j], v[j + 3..] + [SOH] + rest);
    }
  }

  lemma MarkAfter(front: string, rest: string)
    ensures At(front + (MARK + rest), MARK, |front|)
  {}

  /** The text of a list of fields holds the mark exactly when one of them is unclean. */
  lemma {:induction false} CleanHasNoMark(fields: seq<FixField>)
    ensures Occurs(Text(fields), MARK) <==> !Clean(fields)
  {
    if fields == [] {
    } else {
      var f, rest := fields[0], Text(fields[1..]);
      CleanHasNoMark(fields[1..]);
      var s := Text(fields);
      if !CleanField(f) {
        var i := UncleanMarks(f, rest);
      } else {
        forall i ensures At(s, MARK, i) <==> i >= |FieldText(f)| && At(rest, MARK, i - |FieldText(f)|) {
          if 0 <= i < |FieldText(f)| && At(s, MARK, i) {
            MarkInField(f, rest, i);
          }
          if i >= |FieldText(f)| && i + 3 <= |s| {
            assert s[i..i + 3] == rest[i - |FieldText(f)|..i - |FieldText(f)| + 3];
          }
        }
        if Occurs(rest, MARK) {
          assert At(s, MARK, Find(rest, MARK, 0) + |FieldText(f)|);
        }
      }
    }
  }
}
