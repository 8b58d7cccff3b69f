/** Bucket keys of one filing: primary, xbrl and attachment blobs never share a key. */
module ObjectKeys {

  function Digit(d: nat): char
    requires d < 10
  {
    "0123456789"[d]
  }

  function DigitValue(c: char): nat {
    if '0' <= c <= '9' then c as nat - '0' as nat else 0
  }

  /** Decimal text. */
  function Decimal(n: nat): string {
    if n < 10 then [Digit(n)] else Decimal(n / 10) + [Digit(n % 10)]
  }

  function Value(s: string): nat {
    if s == [] then 0 else 10 * Value(s[..|s| - 1]) + DigitValue(s[|s| - 1])
  }

  function ZeroFill(s: string, width: nat): string
    decreases width - |s|
  {
    if |s| >= width then s else ZeroFill("0" + s, width)
  }

  /** Python's `{sequence:03d}`; the sign takes one of the three places. */
  function Sequence03(n: int): string {
    if n < 0 then "-" + ZeroFill(Decimal(-n), 2) else ZeroFill(Decimal(n), 3)
  }

  predicate AllDigits(s: string) {
    forall i :: 0 <= i < |s| ==> '0' <= s[i] <= '9'
  }

  lemma {:induction false} DecimalRoundTrip(n: nat)
    ensures Value(Decimal(n)) == n && AllDigits(Decimal(n)) && |Decimal(n)| > 0
  {
    if n >= 10 {
      DecimalRoundTrip(n / 10);
      assert Decimal(n)[..|Decimal(n)| - 1] == Decimal(n / 10);
    }
  }

  lemma {:induction false} LeadingZero(s: string)
    ensures Value("0" + s) == Value(s)
  {
    if s == [] {
      assert "0" + s == "0";
      assert Value("0") == 10 * Value([]) + 0;
    } else {
      LeadingZero(s[..|s| - 1]);
      assert ("0" + s)[..|s|] == "0" + s[..|s| - 1];
    }
  }

  lemma {:induction false} ZeroFillKeepsValue(s: string, width: nat)
    requires AllDigits(s) && |s| > 0
    ensures Value(ZeroFill(s, width)) == Value(s) && AllDigits(ZeroFill(s, width)) && |ZeroFill(s, width)| > 0
    decreases width - |s|
  {
    if |s| < width {
      LeadingZero(s);
      ZeroFillKeepsValue("0" + s, width);
    }
  }

  lemma DecimalWidth(n: nat)
    ensures (n < 100 ==> |Decimal(n)| <= 2) && (n < 1000 ==> |Decimal(n)| <= 3)
  {
    assert n < 10 ==> |Decimal(n)| == 1;
    assert 10 <= n < 100 ==> |Decimal(n / 10)| == 1;
    assert 100 <= n < 1000 ==> |Decimal(n / 10 / 10)| == 1 && |Decimal(n / 10)| == 2;
  }

  lemma {:induction false} ZeroFillWidth(s: string, width: nat)
    ensures |ZeroFill(s, width)| == if |s| >= width then |s| else width
    decreases width - |s|
  {
    if |s| < width {
      ZeroFillWidth("0" + s, width);
    }
  }

  /** The sequence text is never empty, holds no slash, and determines the sequence number. */
  lemma SequenceText(n: int)
    ensures '/' !in Sequence03(n) && |Sequence03(n)| > 0
    ensures n < 0 <==> Sequence03(n)[0] == '-'
    ensures n < 0 ==> Value(Sequence03(n)[1..]) == -n
    ensures n >= 0 ==> Value(Sequence03(n)) == n
    ensures |Sequence03(n)| >= 3 && (-100 < n < 1000 ==> |Sequence03(n)| == 3)
  {
    DecimalWidth(if n < 0 then -n else n);
    ZeroFillWidth(Decimal(if n < 0 then -n else n), if n < 0 then 2 else 3);
    DecimalRoundTrip(if n < 0 then -n else n);
    if n < 0 {
      ZeroFillKeepsValue(Decimal(-n), 2);
      assert Sequence03(n)[1..] == ZeroFill(Decimal(-n), 2);
    } else {
      ZeroFillKeepsValue(Decimal(n), 3);
    }
  }

  /** `_format_object_key` after the part that all blobs of one filing share. */
  function KeyOf(prefix: string, role: string, filename: string): string {
    prefix + role + "/" + filename
  }

  function AttachmentKey(prefix: string, sequence: int, filename: string): string {
    KeyOf(prefix, "attachments/" + Sequence03(sequence), filename)
  }

  /** Text up to the first slash determines both sides of it. */
  lemma FirstSlashSplits(a: string, b: string, x: string, y: string)
    requires '/' !in a && '/' !in b && a + "/" + x == b + "/" + y
    ensures a == b && x == y
  {
    var s := a + "/" + x;
    assert s[|a|] == '/' && s[|b|] == '/';
    assert |a| == |b|;
    assert s[..|a|] == a && s[|a| + 1..] == x;
    assert (b + "/" + y)[..|b|] == b && (b + "/" + y)[|b| + 1..] == y;
  }

  lemma CommonPrefixDrops(p: string, x: string, y: string)
    requires p + x == p + y
    ensures x == y
  {
    assert (p + x)[|p|..] == x && (p + y)[|p|..] == y;
  }

  lemma AttachmentKeyShape(prefix: string, s: int, f: string)
    ensures AttachmentKey(prefix, s, f) == (prefix + "attachments/") + (Sequence03(s) + "/" + f)
  {
    var text := Sequence03(s);
    assert prefix + ("attachments/" + text) + "/" + f == (prefix + "attachments/") + (text + "/" + f);
  }

  /** Two attachments share a key only when they share sequence and filename. */
  lemma AttachmentKeysDiffer(prefix: string, s1: int, f1: string, s2: int, f2: string)
    requires AttachmentKey(prefix, s1, f1) == AttachmentKey(prefix, s2, f2)
    ensures s1 == s2 && f1 == f2
  {
    var p := prefix + "attachments/";
    AttachmentKeyShape(prefix, s1, f1);
    AttachmentKeyShape(prefix, s2, f2);
    CommonPrefixDrops(p, Sequence03(s1) + "/" + f1, Sequence03(s2) + "/" + f2);
    SequenceText(s1);
    SequenceText(s2);
    FirstSlashSplits(Sequence03(s1), Sequence03(s2), f1, f2);
  }

  /** Blobs of different roles never share a key, whatever their filenames. */
  lemma RolesDiffer(prefix: string, f1: string, f2: string, s: int, f3: string)
    ensures KeyOf(prefix, "primary", f1) != KeyOf(prefix, "xbrl", f2)
    ensures KeyOf(prefix, "primary", f1) != AttachmentKey(prefix, s, f3)
    ensures KeyOf(prefix, "xbrl", f2) != AttachmentKey(prefix, s, f3)
  {
    assert KeyOf(prefix, "primary", f1)[|prefix|] == 'p';
    assert KeyOf(prefix, "xbrl", f2)[|prefix|] == 'x';
    assert AttachmentKey(prefix, s, f3)[|prefix|] == 'a';
  }
}
