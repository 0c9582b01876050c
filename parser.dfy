/**
 * `parse_transfer_info`: scan the extracted text line by line and fill in
 * the transfer record. Each stripped line goes to the first branch whose
 * keyword (English or Chinese) it contains, in the order order number,
 * date, customer, address; that branch alone may write its field, and a
 * later line taken by the same branch writes over an earlier one.
 */
module Parser {
  import opened Options
  import opened Strings

  /** The record `parse_transfer_info` returns; `items` is never filled in. */
  datatype TransferInfo = TransferInfo(
    orderNumber: string,
    date: string,
    customer: string,
    address: string,
    items: seq<string>)

  /** The record before any line is read: every field "" and no items. */
  const Blank := TransferInfo("", "", "", "", [])

  /** The four fields the branches write, in the order the branches are tried. */
  datatype Field = OrderNumber | Date | Customer | Address

  function Get(info: TransferInfo, f: Field): string {
    match f
    case OrderNumber => info.orderNumber
    case Date => info.date
    case Customer => info.customer
    case Address => info.address
  }

  function With(info: TransferInfo, f: Field, v: string): TransferInfo {
    match f
    case OrderNumber => info.(orderNumber := v)
    case Date => info.(date := v)
    case Customer => info.(customer := v)
    case Address => info.(address := v)
  }

  /** Position of a branch in the `if`/`elif` chain. */
  function Rank(f: Field): nat {
    match f
    case OrderNumber => 0
    case Date => 1
    case Customer => 2
    case Address => 3
  }

  const OrderWord := "Order"
  const OrderWordZh := "\U{8ba2}\U{5355}"     // 订单
  const DateWord := "Date"
  const DateWordZh := "\U{65e5}\U{671f}"      // 日期
  const CustomerWord := "Customer"
  const CustomerWordZh := "\U{5ba2}\U{6237}"  // 客户
  const AddressWord := "Address"
  const AddressWordZh := "\U{5730}\U{5740}"   // 地址

  /** The two keywords that send a line to the branch of field `f`. */
  function Keywords(f: Field): (string, string) {
    match f
    case OrderNumber => (OrderWord, OrderWordZh)
    case Date => (DateWord, DateWordZh)
    case Customer => (CustomerWord, CustomerWordZh)
    case Address => (AddressWord, AddressWordZh)
  }

  predicate HasKeyword(line: string, f: Field) {
    Contains(line, Keywords(f).0) || Contains(line, Keywords(f).1)
  }

  /** The branch of the `if`/`elif` chain that takes `line`, if any. */
  function Classify(line: string): Option<Field> {
    if HasKeyword(line, OrderNumber) then Some(OrderNumber)
    else if HasKeyword(line, Date) then Some(Date)
    else if HasKeyword(line, Customer) then Some(Customer)
    else if HasKeyword(line, Address) then Some(Address)
    else None
  }

  /**
   * A line goes to branch `f` exactly when it holds one of `f`'s keywords
   * and none of the keywords of an earlier branch.
   */
  lemma {:induction false} ClassifyIsFirstKeyword(line: string, f: Field)
    ensures Classify(line) == Some(f) <==>
              HasKeyword(line, f) && forall g: Field :: Rank(g) < Rank(f) ==> !HasKeyword(line, g)
  {
    var all := [OrderNumber, Date, Customer, Address];
    assert forall g: Field :: g == all[Rank(g)];
  }

  // ---------------------------------------------------------------------
  // re.search(r'(\d+)', line)
  // ---------------------------------------------------------------------

  /** The end of the run of digits that starts at `i`. */
  function DigitRunEnd(s: string, i: nat): (j: nat)
    requires i <= |s|
    ensures i <= j <= |s|
    ensures forall k :: i <= k < j ==> IsDigit(s[k])
    ensures j == |s| || !IsDigit(s[j])
    decreases |s| - i
  {
    if i < |s| && IsDigit(s[i]) then DigitRunEnd(s, i + 1) else i
  }

  /** The first position at or after `i` that holds a digit, or `|s|`. */
  function FirstDigit(s: string, i: nat): (k: nat)
    requires i <= |s|
    ensures i <= k <= |s|
    ensures forall m :: i <= m < k ==> !IsDigit(s[m])
    ensures k < |s| ==> IsDigit(s[k])
    decreases |s| - i
  {
    if i == |s| || IsDigit(s[i]) then i else FirstDigit(s, i + 1)
  }

  /** `s[i..j]` is the leftmost run of digits in `s`, taken as long as it goes. */
  ghost predicate LeftmostDigitRun(s: string, i: int, j: int) {
    && 0 <= i < j <= |s|
    && (forall k :: 0 <= k < i ==> !IsDigit(s[k]))
    && (forall k :: i <= k < j ==> IsDigit(s[k]))
    && (j == |s| || !IsDigit(s[j]))
  }

  /**
   * `re.search(r'(\d+)', s).group(1)`: the leftmost maximal run of digits,
   * or None when `s` holds no digit.
   */
  function SearchDigits(s: string): (r: Option<string>)
    ensures r.None? <==> forall k :: 0 <= k < |s| ==> !IsDigit(s[k])
    ensures r.Some? ==> exists i, j :: LeftmostDigitRun(s, i, j) && r.value == s[i..j]
  {
    var i := FirstDigit(s, 0);
    if i == |s| then None
    else
      var j := DigitRunEnd(s, i);
      assert LeftmostDigitRun(s, i, j);
      Some(s[i..j])
  }

  /**
   * A run of digits after a stretch without digits, ended by the end of the
   * line or by a non-digit, is what the number search finds.
   */
  lemma {:induction false} DigitsAfterNonDigits(p: string, n: string, rest: string)
    requires forall k :: 0 <= k < |p| ==> !IsDigit(p[k])
    requires |n| > 0 && forall k :: 0 <= k < |n| ==> IsDigit(n[k])
    requires rest == [] || !IsDigit(rest[0])
    ensures SearchDigits(p + n + rest) == Some(n)
  {
    var s := p + n + rest;
    assert forall k :: 0 <= k < |p| ==> !IsDigit(s[k]) by {
      forall k | 0 <= k < |p| ensures !IsDigit(s[k]) {
        assert s[k] == p[k];
      }
    }
    assert forall k :: |p| <= k < |p| + |n| ==> IsDigit(s[k]) by {
      forall k | |p| <= k < |p| + |n| ensures IsDigit(s[k]) {
        assert s[k] == n[k - |p|];
      }
    }
    assert rest != [] ==> s[|p| + |n|] == rest[0];
    assert IsDigit(s[|p|]);
    var r := SearchDigits(s);
    var i, j :| LeftmostDigitRun(s, i, j) && r.value == s[i..j];
    assert i <= |p|;
    assert IsDigit(s[i]);
    assert i == |p|;
    assert j == |p| + |n|;
    assert s[i..j] == n;
  }

  // ---------------------------------------------------------------------
  // re.search(r'(\d{4}-\d{2}-\d{2}|\d{2}/\d{2}/\d{4})', line)
  // ---------------------------------------------------------------------

  /** `dddd-dd-dd` starts at `i`. */
  predicate IsoDateAt(s: string, i: nat) {
    && i + 10 <= |s|
    && IsDigit(s[i]) && IsDigit(s[i + 1]) && IsDigit(s[i + 2]) && IsDigit(s[i + 3])
    && s[i + 4] == '-'
    && IsDigit(s[i + 5]) && IsDigit(s[i + 6])
    && s[i + 7] == '-'
    && IsDigit(s[i + 8]) && IsDigit(s[i + 9])
  }

  /** `dd/dd/dddd` starts at `i`. */
  predicate SlashDateAt(s: string, i: nat) {
    && i + 10 <= |s|
    && IsDigit(s[i]) && IsDigit(s[i + 1])
    && s[i + 2] == '/'
    && IsDigit(s[i + 3]) && IsDigit(s[i + 4])
    && s[i + 5] == '/'
    && IsDigit(s[i + 6]) && IsDigit(s[i + 7]) && IsDigit(s[i + 8]) && IsDigit(s[i + 9])
  }

  /** One of the two alternatives of the date pattern matches at `i`. */
  predicate DateAt(s: string, i: nat) {
    IsoDateAt(s, i) || SlashDateAt(s, i)
  }

  /** The first position at or after `i` where a date starts, or `|s|`. */
  function FirstDate(s: string, i: nat): (k: nat)
    requires i <= |s|
    ensures i <= k <= |s|
    ensures forall m :: i <= m < k ==> !DateAt(s, m)
    ensures k < |s| ==> DateAt(s, k)
    decreases |s| - i
  {
    if i == |s| || DateAt(s, i) then i else FirstDate(s, i + 1)
  }

  /**
   * `re.search(...).group(1)` for the date pattern: the ten characters at
   * the leftmost position where either form matches, or None when neither
   * matches anywhere. The value found has one of the two forms itself.
   */
  function SearchDate(s: string): (r: Option<string>)
    ensures r.None? <==> forall k :: 0 <= k < |s| ==> !DateAt(s, k)
    ensures r.Some? ==> exists i :: 0 <= i < |s| && DateAt(s, i) && r.value == s[i..i + 10]
                                   && forall m :: 0 <= m < i ==> !DateAt(s, m)
    ensures r.Some? ==> |r.value| == 10 && DateAt(r.value, 0)
  {
    var i := FirstDate(s, 0);
    if i == |s| then None
    else
      var d := s[i..i + 10];
      assert forall k :: 0 <= k < 10 ==> d[k] == s[i + k];
      Some(d)
  }

  /** A date after a stretch without digits is what the date search finds. */
  lemma {:induction false} DateAfterNonDigits(p: string, d: string, rest: string)
    requires forall k :: 0 <= k < |p| ==> !IsDigit(p[k])
    requires |d| == 10 && DateAt(d, 0)
    ensures SearchDate(p + d + rest) == Some(d)
  {
    var s := p + d + rest;
    assert forall k :: 0 <= k < |p| ==> s[k] == p[k];
    assert forall k :: 0 <= k < 10 ==> s[|p| + k] == d[k];
    assert DateAt(s, |p|);
    var r := SearchDate(s);
    var i :| 0 <= i < |s| && DateAt(s, i) && r.value == s[i..i + 10]
             && forall m :: 0 <= m < i ==> !DateAt(s, m);
    assert IsDigit(s[i]);
    assert i == |p|;
    assert s[i..i + 10] == d;
  }

  // ---------------------------------------------------------------------
  // One line
  // ---------------------------------------------------------------------

  /** `line.split(':')[-1].strip()`. */
  function AfterColon(line: string): (r: string)
    ensures ':' !in r
    ensures ':' !in line ==> r == Strip(line)
    ensures exists t :: t == AfterLast(line, ':') && r == Strip(t) && EndsWith(line, t)
  {
    var t := AfterLast(line, ':');
    StripKeepsCharacters(t);
    Strip(t)
  }

  /**
   * What branch `f` writes when it takes the stripped line `line`: None when
   * its pattern is not found and it writes nothing. The customer and address
   * branches always write, even "".
   */
  function BranchValue(line: string, f: Field): (r: Option<string>)
    ensures f == OrderNumber && r.Some? ==>
              |r.value| > 0 && forall k :: 0 <= k < |r.value| ==> IsDigit(r.value[k])
    ensures f == Date && r.Some? ==> |r.value| == 10 && DateAt(r.value, 0)
    ensures f == Customer || f == Address ==> r.Some? && ':' !in r.value
  {
    match f
    case OrderNumber => SearchDigits(line)
    case Date => SearchDate(line)
    case Customer => Some(AfterColon(line))
    case Address => Some(AfterColon(line))
  }

  /** What reading one line does to the record: write one field, or nothing. */
  type Write = Option<(Field, string)>

  /**
   * The one write the loop body performs for the raw line `raw`: the field
   * of the branch that takes the stripped line and the value it stores, or
   * None when no branch takes it or the branch finds nothing to store.
   */
  function LineWrite(raw: string): Write {
    var line := Strip(raw);
    match Classify(line)
    case None => None
    case Some(f) =>
      match BranchValue(line, f)
      case None => None
      case Some(v) => Some((f, v))
  }

  /** The value the write `w` stores in field `f`, if it is a write to `f`. */
  function WriteTo(w: Write, f: Field): Option<string> {
    match w
    case Some((g, v)) => if g == f then Some(v) else None
    case None => None
  }

  /** The value the raw line `raw` writes into field `f`, if it writes one. */
  function Written(raw: string, f: Field): Option<string> {
    WriteTo(LineWrite(raw), f)
  }

  /** Perform the write `w` on the record `info`. */
  function Apply(info: TransferInfo, w: Write): TransferInfo {
    match w
    case None => info
    case Some((f, v)) => With(info, f, v)
  }

  /** One pass of the loop body of `parse_transfer_info` over the raw line `raw`. */
  function Step(info: TransferInfo, raw: string): TransferInfo {
    Apply(info, LineWrite(raw))
  }

  /** A write changes at most the field it names, and never `items`. */
  lemma {:induction false} ApplyEffect(info: TransferInfo, w: Write, g: Field)
    ensures Get(Apply(info, w), g) == WriteTo(w, g).GetOr(Get(info, g))
    ensures Apply(info, w).items == info.items
  {
  }

  /**
   * A line changes at most one field, the one of the branch that takes it,
   * and only when that branch has a value to write; `items` is untouched.
   */
  lemma {:induction false} StepEffect(info: TransferInfo, raw: string, g: Field)
    ensures Get(Step(info, raw), g) == Written(raw, g).GetOr(Get(info, g))
    ensures Step(info, raw).items == info.items
  {
    ApplyEffect(info, LineWrite(raw), g);
  }

  /**
   * What a line writes, by branch: the first branch whose keyword the
   * stripped line holds decides the field; order number and date are
   * written only when their pattern is found, customer and address always.
   */
  lemma {:induction false} WrittenByBranch(raw: string, f: Field)
    ensures var line := Strip(raw);
            Written(raw, f) == if Classify(line) == Some(f) then BranchValue(line, f) else None
  {
    var line := Strip(raw);
    match Classify(line) {
      case None =>
        assert LineWrite(raw) == None;
      case Some(g) =>
        match BranchValue(line, g) {
          case None =>
            assert LineWrite(raw) == None;
          case Some(v) =>
            assert LineWrite(raw) == Some((g, v));
        }
    }
  }

  /** No line is written into two fields. */
  lemma {:induction false} OneFieldPerLine(raw: string, f: Field, g: Field)
    requires f != g
    ensures Written(raw, f).None? || Written(raw, g).None?
  {
  }

  /**
   * A line `Order <date>...` holds both the order keyword and a date, and
   * goes to the order branch, which takes the first run of digits; for a
   * date `yyyy-mm-dd` that is the year, and the date the line holds is not
   * written.
   */
  lemma {:induction false} OrderOutranksDate(info: TransferInfo, d: string, rest: string)
    requires |d| == 10 && IsoDateAt(d, 0)
    requires rest == [] || !IsSpace(rest[|rest| - 1])
    ensures var line := OrderWord + " " + d + rest;
            && SearchDate(line) == Some(d)
            && Step(info, line) == info.(orderNumber := d[..4])
  {
    var line := OrderWord + " " + d + rest;
    OrderDateLineSearches(d, rest);
    OrderDateLineTaken(d, rest);
    assert LineWrite(line) == Some((OrderNumber, d[..4]));
  }

  /** On such a line the date search finds the date and the number search its year. */
  lemma {:induction false} OrderDateLineSearches(d: string, rest: string)
    requires |d| == 10 && IsoDateAt(d, 0)
    ensures var line := OrderWord + " " + d + rest;
            SearchDate(line) == Some(d) && SearchDigits(line) == Some(d[..4])
  {
    var p := OrderWord + " ";
    assert forall k :: 0 <= k < |p| ==> !IsDigit(p[k]);
    DateAndYear(p, d, rest);
  }

  /** After a stretch without digits, an ISO date is found by the date search and its year by the number search. */
  lemma {:induction false} DateAndYear(p: string, d: string, rest: string)
    requires forall k :: 0 <= k < |p| ==> !IsDigit(p[k])
    requires |d| == 10 && IsoDateAt(d, 0)
    ensures SearchDate(p + d + rest) == Some(d) && SearchDigits(p + d + rest) == Some(d[..4])
  {
    DateAfterNonDigits(p, d, rest);
    YearAfterNonDigits(p, d, rest);
  }

  /** The number search stops at the first '-' of an ISO date: it finds the year. */
  lemma {:induction false} YearAfterNonDigits(p: string, d: string, rest: string)
    requires forall k :: 0 <= k < |p| ==> !IsDigit(p[k])
    requires |d| == 10 && IsoDateAt(d, 0)
    ensures SearchDigits(p + d + rest) == Some(d[..4])
  {
    var n, r := d[..4], d[4..] + rest;
    assert p + d + rest == p + n + r by {
      assert d == n + d[4..];
    }
    assert forall k :: 0 <= k < 4 ==> n[k] == d[k];
    assert r[0] == d[4];
    DigitsAfterNonDigits(p, n, r);
  }

  /** Such a line is its own strip, and the order branch takes it. */
  lemma {:induction false} OrderDateLineTaken(d: string, rest: string)
    requires |d| == 10 && IsoDateAt(d, 0)
    requires rest == [] || !IsSpace(rest[|rest| - 1])
    ensures var line := OrderWord + " " + d + rest;
            Strip(line) == line && Classify(line) == Some(OrderNumber)
  {
    var line := OrderWord + " " + d + rest;
    assert Strip(line) == line by {
      assert line[0] == 'O';
      assert line[|line| - 1] == if rest == [] then d[9] else rest[|rest| - 1];
      StripUnchanged(line);
    }
    assert Contains(line, OrderWord) by {
      assert OrderWord <= line;
    }
  }

  // ---------------------------------------------------------------------
  // The whole text
  // ---------------------------------------------------------------------

  /** The record after the loop has read `lines` in order, starting from `Blank`. */
  function ParseLines(lines: seq<string>): TransferInfo {
    if lines == [] then Blank else Step(ParseLines(lines[..|lines| - 1]), lines[|lines| - 1])
  }

  /** `parse_transfer_info(text)` as a function: split on '\n' and run the loop. */
  function Parse(text: string): TransferInfo {
    ParseLines(Split(text, '\n'))
  }

  // The branches of the loop body's `if`/`elif` chain, one lemma each.

  lemma {:induction false} OrderBranch(line: string)
    requires Contains(line, OrderWord) || Contains(line, OrderWordZh)
    ensures Classify(line) == Some(OrderNumber)
  {
  }

  lemma {:induction false} DateBranch(line: string)
    requires !(Contains(line, OrderWord) || Contains(line, OrderWordZh))
    requires Contains(line, DateWord) || Contains(line, DateWordZh)
    ensures Classify(line) == Some(Date)
  {
  }

  lemma {:induction false} CustomerBranch(line: string)
    requires !(Contains(line, OrderWord) || Contains(line, OrderWordZh))
    requires !(Contains(line, DateWord) || Contains(line, DateWordZh))
    requires Contains(line, CustomerWord) || Contains(line, CustomerWordZh)
    ensures Classify(line) == Some(Customer)
  {
  }

  lemma {:induction false} AddressBranch(line: string)
    requires !(Contains(line, OrderWord) || Contains(line, OrderWordZh))
    requires !(Contains(line, DateWord) || Contains(line, DateWordZh))
    requires !(Contains(line, CustomerWord) || Contains(line, CustomerWordZh))
    requires Contains(line, AddressWord) || Contains(line, AddressWordZh)
    ensures Classify(line) == Some(Address)
  {
  }

  lemma {:induction false} NoBranch(line: string)
    requires !(Contains(line, OrderWord) || Contains(line, OrderWordZh))
    requires !(Contains(line, DateWord) || Contains(line, DateWordZh))
    requires !(Contains(line, CustomerWord) || Contains(line, CustomerWordZh))
    requires !(Contains(line, AddressWord) || Contains(line, AddressWordZh))
    ensures Classify(line) == None
  {
  }

  /** The step for a line the branch of `f` takes, with `found` what the branch computes. */
  lemma {:induction false} StepTaken(info: TransferInfo, raw: string, f: Field, found: Option<string>)
    requires Classify(Strip(raw)) == Some(f)
    requires found == BranchValue(Strip(raw), f)
    ensures Step(info, raw) == match found case Some(v) => With(info, f, v) case None => info
  {
    match found {
      case Some(v) =>
        assert LineWrite(raw) == Some((f, v));
      case None =>
        assert LineWrite(raw) == None;
    }
  }

  /** Reading one more line is one more step. */
  lemma {:induction false} ParseLinesSnoc(lines: seq<string>, i: nat)
    requires i < |lines|
    ensures ParseLines(lines[..i + 1]) == Step(ParseLines(lines[..i]), lines[i])
  {
    assert lines[..i + 1][..i] == lines[..i];
  }

  /** `parse_transfer_info`, loop for loop and branch for branch. */
  method ParseTransferInfo(text: string) returns (info: TransferInfo)
    ensures info == Parse(text)
  {
    info := TransferInfo("", "", "", "", []);
    var lines := Split(text, '\n');
    for i := 0 to |lines|
      invariant info == ParseLines(lines[..i])
    {
      ParseLinesSnoc(lines, i);
      var line := Strip(lines[i]);
      if Contains(line, OrderWord) || Contains(line, OrderWordZh) {
        var m := SearchDigits(line);
        OrderBranch(line);
        StepTaken(info, lines[i], OrderNumber, m);
        if m.Some? {
          info := info.(orderNumber := m.value);
        }
      } else if Contains(line, DateWord) || Contains(line, DateWordZh) {
        var m := SearchDate(line);
        DateBranch(line);
        StepTaken(info, lines[i], Date, m);
        if m.Some? {
          info := info.(date := m.value);
        }
      } else if Contains(line, CustomerWord) || Contains(line, CustomerWordZh) {
        CustomerBranch(line);
        StepTaken(info, lines[i], Customer, Some(AfterColon(line)));
        info := info.(customer := AfterColon(line));
      } else if Contains(line, AddressWord) || Contains(line, AddressWordZh) {
        AddressBranch(line);
        StepTaken(info, lines[i], Address, Some(AfterColon(line)));
        info := info.(address := AfterColon(line));
      } else {
        NoBranch(line);
      }
    }
    assert lines[..|lines|] == lines;
  }

  /** `items` is always the empty list. */
  lemma {:induction false} ItemsAlwaysEmpty(lines: seq<string>)
    ensures ParseLines(lines).items == []
    decreases |lines|
  {
    if lines != [] {
      ItemsAlwaysEmpty(lines[..|lines| - 1]);
    }
  }

  /** `f` applied to every element of `s`, in order. */
  function MapSeq<A, B>(f: A -> B, s: seq<A>): (r: seq<B>)
    ensures |r| == |s|
    ensures forall j :: 0 <= j < |s| ==> r[j] == f(s[j])
  {
    seq(|s|, j requires 0 <= j < |s| => f(s[j]))
  }

  /** The writes the lines perform, one per line, in order. */
  function Writes(lines: seq<string>): (ws: seq<Write>)
    ensures |ws| == |lines|
    ensures forall j :: 0 <= j < |lines| ==> ws[j] == LineWrite(lines[j])
  {
    MapSeq(LineWrite, lines)
  }

  /** The record after performing the writes `ws` in order, starting from `Blank`. */
  function Replay(ws: seq<Write>): TransferInfo {
    if ws == [] then Blank else Apply(Replay(ws[..|ws| - 1]), ws[|ws| - 1])
  }

  /** Reading the lines is performing their writes in order. */
  lemma {:induction false} ParseLinesIsReplay(lines: seq<string>)
    ensures ParseLines(lines) == Replay(Writes(lines))
    decreases |lines|
  {
    if lines != [] {
      var n := |lines| - 1;
      ParseLinesIsReplay(lines[..n]);
      assert Writes(lines)[..n] == Writes(lines[..n]);
    }
  }

  /** Writes that miss field `f` leave it as the writes before them left it. */
  lemma {:induction false} ReplayMisses(before: seq<Write>, after: seq<Write>, f: Field)
    requires forall j :: 0 <= j < |after| ==> WriteTo(after[j], f).None?
    ensures Get(Replay(before + after), f) == Get(Replay(before), f)
    decreases |after|
  {
    if after == [] {
      assert before + after == before;
    } else {
      var n := |after| - 1;
      assert (before + after)[..|before + after| - 1] == before + after[..n];
      ReplayMisses(before, after[..n], f);
      ApplyEffect(Replay(before + after[..n]), after[n], f);
    }
  }

  /** A field holds what the last write to it stored. */
  lemma {:induction false} ReplayLastWrite(ws: seq<Write>, f: Field, k: nat)
    requires k < |ws|
    requires WriteTo(ws[k], f).Some?
    requires forall j :: k < j < |ws| ==> WriteTo(ws[j], f).None?
    ensures Get(Replay(ws), f) == WriteTo(ws[k], f).value
  {
    var before, after := ws[..k + 1], ws[k + 1..];
    assert ws == before + after;
    ReplayMisses(before, after, f);
    assert before[..k] == ws[..k];
    ApplyEffect(Replay(ws[..k]), ws[k], f);
  }

  /**
   * A field holds what the last line that wrote it wrote: every later line
   * passes it by. For customer and address this is the last line their
   * branch took, even when the value it wrote was "".
   */
  lemma {:induction false} LastWriteWins(lines: seq<string>, f: Field, k: nat)
    requires k < |lines|
    requires Written(lines[k], f).Some?
    requires forall j :: k < j < |lines| ==> Written(lines[j], f).None?
    ensures Get(ParseLines(lines), f) == Written(lines[k], f).value
  {
    var ws := Writes(lines);
    ParseLinesIsReplay(lines);
    ReplayLastWrite(ws, f, k);
  }

  /** A field no line wrote keeps its default "". */
  lemma {:induction false} NeverWritten(lines: seq<string>, f: Field)
    requires forall j :: 0 <= j < |lines| ==> Written(lines[j], f).None?
    ensures Get(ParseLines(lines), f) == ""
  {
    var ws := Writes(lines);
    ParseLinesIsReplay(lines);
    ReplayMisses([], ws, f);
    assert [] + ws == ws;
  }

  /** None of the eight keywords occurs in `s`. */
  predicate NoKeyword(s: string) {
    forall f: Field :: !HasKeyword(s, f)
  }

  /** Stripping a line cannot make a keyword appear. */
  lemma {:induction false} StripKeepsNoKeyword(raw: string)
    requires NoKeyword(raw)
    ensures NoKeyword(Strip(raw))
  {
    forall f: Field ensures !HasKeyword(Strip(raw), f) {
      assert !HasKeyword(raw, f);
      StripKeepsMissing(raw, Keywords(f).0);
      StripKeepsMissing(raw, Keywords(f).1);
    }
  }

  /** Text in which no line holds any of the eight keywords parses to the blank record. */
  lemma {:induction false} NoKeywordsGiveBlank(text: string)
    requires forall line :: line in Split(text, '\n') ==> NoKeyword(line)
    ensures Parse(text) == Blank
  {
    var lines := Split(text, '\n');
    forall f: Field ensures Get(Parse(text), f) == "" {
      forall j | 0 <= j < |lines| ensures Written(lines[j], f).None? {
        assert lines[j] in lines;
        StripKeepsNoKeyword(lines[j]);
      }
      NeverWritten(lines, f);
    }
    ItemsAlwaysEmpty(lines);
    var p := Parse(text);
    assert p.orderNumber == Get(p, OrderNumber);
    assert p.date == Get(p, Date);
    assert p.customer == Get(p, Customer);
    assert p.address == Get(p, Address);
  }
}
