/** Text as Redis, the Lua scripts and the Go storage layer handle it: decimal integers, plain
    substring search, byte order, and stream ids of the form "millis-seq". */
module Text {

  datatype Option<+T> = None | Some(value: T)

  // ---- decimal integers -------------------------------------------------------------------

  function Digit(d: nat): char
    requires d < 10
  {
    '0' + d as char
  }

  predicate IsDigit(c: char) {
    '0' <= c <= '9'
  }

  predicate AllDigits(s: string) {
    forall i :: 0 <= i < |s| ==> IsDigit(s[i])
  }

  function NatText(n: nat): (s: string)
    ensures s != "" && AllDigits(s)
  {
    if n < 10 then [Digit(n)] else NatText(n / 10) + [Digit(n % 10)]
  }

  function DigitsValue(s: string): nat
    requires AllDigits(s)
  {
    if s == "" then 0 else 10 * DigitsValue(s[..|s| - 1]) + (s[|s| - 1] - '0') as nat
  }

  function ParseNat(s: string): Option<nat> {
    if s != "" && AllDigits(s) then Some(DigitsValue(s)) else None
  }

  function IntText(v: int): string {
    if v < 0 then "-" + NatText(-v) else NatText(v)
  }

  /** An optional sign and decimal digits. */
  function ParseInt(s: string): Option<int> {
    if s != "" && s[0] in "+-" then
      match ParseNat(s[1..])
      case None => None
      case Some(n) => Some(if s[0] == '-' then 0 - n else n)
    else
      match ParseNat(s)
      case None => None
      case Some(n) => Some(n)
  }

  lemma {:induction false} NatTextRoundTrip(n: nat)
    ensures DigitsValue(NatText(n)) == n
  {
    if n >= 10 {
      NatTextRoundTrip(n / 10);
      var s := NatText(n);
      assert s[..|s| - 1] == NatText(n / 10);
    }
  }

  /** Every integer written in decimal reads back as itself. */
  lemma IntTextRoundTrip(v: int)
    ensures ParseInt(IntText(v)) == Some(v)
  {
    NatTextRoundTrip(if v < 0 then -v else v);
    if v >= 0 {
      assert IsDigit(IntText(v)[0]);
    }
  }

  /** What reads as an integer: decimal digits, with or without one sign, leading zeros allowed. */
  lemma ParseIntIff(s: string, v: int)
    ensures ParseInt(s) == Some(v) <==>
              exists digits: string ::
                && digits != "" && AllDigits(digits)
                && ((s == digits && v == DigitsValue(digits))
                    || (s == "+" + digits && v == DigitsValue(digits))
                    || (s == "-" + digits && v == 0 - DigitsValue(digits)))
  {
    if ParseInt(s) == Some(v) {
      var digits := if s[0] in "+-" then s[1..] else s;
      assert s[0] in "+-" ==> s == [s[0]] + digits;
      assert digits != "" && AllDigits(digits);
    }
    if digits: string :|
      && digits != "" && AllDigits(digits)
      && ((s == digits && v == DigitsValue(digits))
          || (s == "+" + digits && v == DigitsValue(digits))
          || (s == "-" + digits && v == 0 - DigitsValue(digits)))
    {
      if s == digits {
        assert IsDigit(s[0]);
      } else {
        assert s[1..] == digits;
      }
    }
  }

  /** Two integers have the same decimal text only if they are equal: comparing amounts as
      text is comparing amounts. */
  lemma IntTextInjective(v: int, w: int)
    requires IntText(v) == IntText(w)
    ensures v == w
  {
    IntTextRoundTrip(v);
    IntTextRoundTrip(w);
  }

  lemma IntTextChars(v: int)
    ensures IntText(v) != ""
    ensures forall c :: c in IntText(v) ==> c == '-' || IsDigit(c)
  {
  }

  // ---- plain search -----------------------------------------------------------------------

  /** Index of the first c at or after from; |s| when there is none. */
  function Find(s: string, c: char, from: nat): (i: nat)
    requires from <= |s|
    ensures from <= i <= |s|
    ensures i < |s| ==> s[i] == c
    ensures forall j :: from <= j < i ==> s[j] != c
    decreases |s| - from
  {
    if from == |s| || s[from] == c then from else Find(s, c, from + 1)
  }

  /** The text before and after the first c, as strings.Cut splits. */
  function Cut(s: string, c: char): Option<(string, string)> {
    var i := Find(s, c, 0);
    if i == |s| then None else Some((s[..i], s[i + 1..]))
  }

  lemma CutRoundTrip(a: string, c: char, b: string)
    requires c !in a
    ensures Cut(a + [c] + b, c) == Some((a, b))
  {
    var s := a + [c] + b;
    var i := Find(s, c, 0);
    assert s[|a|] == c;
    assert forall j :: 0 <= j < |a| ==> s[j] == a[j] && a[j] in a;
    assert s[..i] == a && s[i + 1..] == b;
  }

  // ---- stream ids -------------------------------------------------------------------------

  function IdText(ms: nat, seqNo: nat): string {
    NatText(ms) + "-" + NatText(seqNo)
  }

  lemma NatTextHasNoDash(n: nat)
    ensures '-' !in NatText(n) && '|' !in NatText(n)
  {
    var s := NatText(n);
    forall c | c in s ensures IsDigit(c) {
      var i :| 0 <= i < |s| && s[i] == c;
    }
  }

  lemma IdTextCut(ms: nat, seqNo: nat)
    ensures Cut(IdText(ms, seqNo), '-') == Some((NatText(ms), NatText(seqNo)))
  {
    NatTextHasNoDash(ms);
    CutRoundTrip(NatText(ms), '-', NatText(seqNo));
  }

  lemma IdTextInjective(ms: nat, seqNo: nat, ms': nat, seqNo': nat)
    requires IdText(ms, seqNo) == IdText(ms', seqNo')
    ensures ms == ms' && seqNo == seqNo'
  {
    IdTextCut(ms, seqNo);
    IdTextCut(ms', seqNo');
    NatTextRoundTrip(ms);
    NatTextRoundTrip(ms');
    NatTextRoundTrip(seqNo);
    NatTextRoundTrip(seqNo');
  }

  // ---- byte order -------------------------------------------------------------------------

  /** The order in which Redis breaks score ties and Go compares strings. */
  predicate Less(a: string, b: string) {
    b != "" && (a == "" || a[0] < b[0] || (a[0] == b[0] && Less(a[1..], b[1..])))
  }

  lemma {:induction false} LessTrichotomy(a: string, b: string)
    ensures a == b ==> !Less(a, b) && !Less(b, a)
    ensures a != b ==> Less(a, b) != Less(b, a)
  {
    if a != "" && b != "" && a[0] == b[0] {
      LessTrichotomy(a[1..], b[1..]);
      assert a == [a[0]] + a[1..] && b == [b[0]] + b[1..];
    }
  }

  lemma {:induction false} LessTransitive(a: string, b: string, c: string)
    requires Less(a, b) && Less(b, c)
    ensures Less(a, c)
  {
    if a != "" && a[0] == b[0] == c[0] {
      LessTransitive(a[1..], b[1..], c[1..]);
    }
  }

  /** Byte order, independently of how a comparison walks: a proper prefix comes first; otherwise the
      first position where the two differ decides. */
  ghost predicate BytewiseBefore(a: string, b: string) {
    a < b || exists i :: 0 <= i < |a| && i < |b| && a[..i] == b[..i] && a[i] < b[i]
  }

  /** The comparison decides byte order, of all texts. */
  lemma {:induction false} LessIff(a: string, b: string)
    ensures Less(a, b) <==> BytewiseBefore(a, b)
  {
    if a != "" && b != "" && a[0] == b[0] {
      LessIff(a[1..], b[1..]);
      TailsCompare(a, b);
    } else if a != "" && b != "" && a[0] < b[0] {
      assert a[..0] == b[..0];
    } else if a != "" && b != "" {
      forall i | 0 < i < |a| && i < |b| ensures a[..i] != b[..i] {
        assert a[..i][0] == a[0] && b[..i][0] == b[0];
      }
    }
  }

  lemma TailsCompare(a: string, b: string)
    requires a != "" && b != "" && a[0] == b[0]
    ensures BytewiseBefore(a, b) <==> BytewiseBefore(a[1..], b[1..])
  {
    assert a == [a[0]] + a[1..] && b == [b[0]] + b[1..];
    if i :| 0 <= i < |a| && i < |b| && a[..i] == b[..i] && a[i] < b[i] {
      assert a[1..][..i - 1] == a[..i][1..] && b[1..][..i - 1] == b[..i][1..];
    }
    if j :| 0 <= j < |a[1..]| && j < |b[1..]| && a[1..][..j] == b[1..][..j] && a[1..][j] < b[1..][j] {
      assert a[..j + 1] == [a[0]] + a[1..][..j] && b[..j + 1] == [b[0]] + b[1..][..j];
      assert a[j + 1] < b[j + 1];
    }
  }

  // ---- joined records ---------------------------------------------------------------------

  /** Text free of both separators the stored keys and records use. */
  predicate Clean(s: string) {
    s != "" && ':' !in s && '|' !in s
  }

  /** Value of a score idempotency record: "entry_id|op|amount". */
  function RecordText(entryId: string, op: string, amount: string): string {
    entryId + "|" + op + "|" + amount
  }

  /** The two plain searches and three slices the write script makes of a stored record. */
  function SplitRecord(s: string): Option<(string, string, string)> {
    var sep1 := Find(s, '|', 0);
    if sep1 == |s| then None else
      var sep2 := Find(s, '|', sep1 + 1);
      if sep2 == |s| then None else
        Some((s[..sep1], s[sep1 + 1..sep2], s[sep2 + 1..]))
  }

  /** A record reads back as its three parts, whatever the amount text holds. */
  lemma RecordRoundTrip(entryId: string, op: string, amount: string)
    requires '|' !in entryId && '|' !in op
    ensures SplitRecord(RecordText(entryId, op, amount)) == Some((entryId, op, amount))
  {
    var s := RecordText(entryId, op, amount);
    var i, j := |entryId|, |entryId| + 1 + |op|;
    assert forall k :: 0 <= k < i ==> s[k] == entryId[k] && entryId[k] in entryId;
    assert forall k :: i < k < j ==> s[k] == op[k - i - 1] && op[k - i - 1] in op;
    assert s[i] == '|' && s[j] == '|';
    assert Find(s, '|', 0) == i && Find(s, '|', i + 1) == j;
    assert s[..i] == entryId && s[i + 1..j] == op && s[j + 1..] == amount;
  }

  /** Field of a score idempotency record: "board:player:key". */
  function FieldText(boardId: string, playerId: string, key: string): string {
    boardId + ":" + playerId + ":" + key
  }

  /** Fields of different writes differ, even when the client's key itself holds colons. */
  lemma FieldInjective(b: string, p: string, k: string, b': string, p': string, k': string)
    requires ':' !in b && ':' !in p && ':' !in b' && ':' !in p'
    requires FieldText(b, p, k) == FieldText(b', p', k')
    ensures b == b' && p == p' && k == k'
  {
    assert FieldText(b, p, k) == b + ":" + (p + ":" + k);
    assert FieldText(b', p', k') == b' + ":" + (p' + ":" + k');
    CutRoundTrip(b, ':', p + ":" + k);
    CutRoundTrip(b', ':', p' + ":" + k');
    CutRoundTrip(p, ':', k);
    CutRoundTrip(p', ':', k');
  }
}
