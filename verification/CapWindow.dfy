/** Which rows the byte cap keeps, exactly, and which redaction can bring back. */
module CapWindow {
  import opened Prelude
  import opened Messages
  import opened History
  import opened HistoryProofs

  datatype Cap = Cap(maxBytes: nat, keepRecent: nat, perResult: nat)

  /** Message `m` at place `i` of `count`, clamped, and with its results cleared if it is old. */
  function Shrunk(m: Message, i: nat, count: nat, cap: Cap): Message {
    var clamped := if cap.perResult > 0 then ClampedMessage(m, cap.perResult) else m;
    if i < ProtectFrom(count, cap.keepRecent) then ClearedMessage(clamped) else clamped
  }

  function SizeAt(m: Message, i: nat, count: nat, cap: Cap): nat {
    ContentSize(Shrunk(m, i, count, cap).content)
  }

  /** Size of the tail from `i` on when all that may be cleared is cleared. */
  function TailSize(ms: seq<Message>, i: nat, cap: Cap): nat
    requires i <= |ms|
    decreases |ms| - i
  {
    if i == |ms| then 0 else SizeAt(ms[i], i, |ms|, cap) + TailSize(ms, i + 1, cap)
  }

  predicate TailFits(ms: seq<Message>, i: nat, cap: Cap)
    requires i < |ms|
  {
    i == |ms| - 1 || TailSize(ms, i, cap) <= cap.maxBytes
  }

  function AllCleared(ms: seq<Message>, cap: Cap): (r: seq<Message>)
    ensures |r| == |ms|
  {
    Cleared(Clamped(ms, cap.perResult), ProtectFrom(|ms|, cap.keepRecent))
  }

  lemma {:induction false} TailSizeIsSize(ms: seq<Message>, i: nat, cap: Cap)
    requires i <= |ms|
    ensures TailSize(ms, i, cap) == HistorySize(AllCleared(ms, cap)[i..])
    decreases |ms| - i
  {
    hide ContentSize, ClearedMessage, ClampedMessage;
    var all := AllCleared(ms, cap);
    if i < |ms| {
      TailSizeIsSize(ms, i + 1, cap);
      assert all[i] == Shrunk(ms[i], i, |ms|, cap);
      assert all[i..][0] == all[i] && all[i..][1..] == all[i + 1..];
    }
  }

  // ---------- Clearing only shrinks ----------

  lemma {:induction false} ClearedContentSize(content: seq<Block>)
    ensures ContentSize(ClearedContent(content)) <= ContentSize(content)
  {
    hide BlockSize, ClearedBlock;
    if content != [] {
      ClearedContentSize(content[1..]);
      ClearedBlockSize(content[0]);
    }
  }

  lemma {:induction false} ClearingMoreShrinks(ms: seq<Message>, i: nat, j: nat, from: nat)
    requires i <= j <= |ms| && from <= |ms|
    ensures HistorySize(Cleared(ms, j)[from..]) <= HistorySize(Cleared(ms, i)[from..])
    decreases |ms| - from
  {
    hide ContentSize, ClearedContent;
    var a, b := Cleared(ms, j), Cleared(ms, i);
    if from < |ms| {
      ClearingMoreShrinks(ms, i, j, from + 1);
      ClearedContentSize(ms[from].content);
      assert a[from..][1..] == a[from + 1..] && b[from..][1..] == b[from + 1..];
    }
  }

  /** A tail fits after the clearing that is done exactly when it fits after all the clearing that is allowed. */
  lemma ClearingSuffices(ms: seq<Message>, i: nat, cap: Cap)
    requires i <= |ms|
    ensures HistorySize(AfterClearing(ms, cap.maxBytes, cap.keepRecent, cap.perResult)[i..]) <= cap.maxBytes
       <==> TailSize(ms, i, cap) <= cap.maxBytes
  {
    hide HistorySize, Cleared, ClearCount;
    var clamped, p := Clamped(ms, cap.perResult), ProtectFrom(|ms|, cap.keepRecent);
    var k := ClearCount(clamped, cap.maxBytes, p, 0);
    TailSizeIsSize(ms, i, cap);
    ClearingMoreShrinks(clamped, k, p, i);
    ClearCountIsLeast(clamped, cap.maxBytes, p, 0);
    SuffixIsSmaller(Cleared(clamped, k), i);
  }

  // ---------- What is kept ----------

  function Cut(ms: seq<Message>, cap: Cap): (cut: nat)
    ensures cut <= |ms|
  {
    CapCut(ms, cap.maxBytes, cap.keepRecent, cap.perResult)
  }

  lemma ClearingKeepsRoles(ms: seq<Message>, cap: Cap, i: nat)
    requires i < |ms|
    ensures AfterClearing(ms, cap.maxBytes, cap.keepRecent, cap.perResult)[i].role == ms[i].role
  {
    hide ClearCount, ClearedContent, ClampedContent;
  }

  lemma DropIsWhereItFits(ms: seq<Message>, cap: Cap, i: nat)
    requires i < |ms|
    ensures i >= DropCount(AfterClearing(ms, cap.maxBytes, cap.keepRecent, cap.perResult), cap.maxBytes)
       <==> TailFits(ms, i, cap)
  {
    hide HistorySize, AfterClearing, DropCount;
    var all := AfterClearing(ms, cap.maxBytes, cap.keepRecent, cap.perResult);
    var d := DropCount(all, cap.maxBytes);
    DropFits(all, cap.maxBytes);
    ClearingSuffices(ms, i, cap);
    assert |all[i..]| == |ms| - i && |all[d..]| == |ms| - d;
    if i >= d {
      SuffixIsSmaller(all[d..], i - d);
      assert all[d..][i - d..] == all[i..];
    }
  }

  /**
   * The cap keeps row `j` if and only if some row at or before it is not a tool message and the tail from that row on
   * fits once all old results are cleared (the last row always fits).
   */
  lemma CapKeepsIff(ms: seq<Message>, cap: Cap, j: nat)
    requires j < |ms|
    ensures j >= Cut(ms, cap) <==> exists i :: 0 <= i <= j && !IsTool(ms[i]) && TailFits(ms, i, cap)
  {
    hide AfterClearing, DropCount, LeadingTools, TailFits;
    var all := AfterClearing(ms, cap.maxBytes, cap.keepRecent, cap.perResult);
    var d := DropCount(all, cap.maxBytes);
    var n := LeadingTools(all[d..]);
    LeadingToolsAreTools(all[d..]);
    assert Cut(ms, cap) == d + n;
    forall i | 0 <= i < |ms| ensures i >= d <==> TailFits(ms, i, cap) {
      DropIsWhereItFits(ms, cap, i);
    }
    forall i | 0 <= i < |ms| ensures IsTool(all[i]) == IsTool(ms[i]) {
      ClearingKeepsRoles(ms, cap, i);
    }
    assert forall i :: d <= i < |ms| ==> all[d..][i - d] == all[i];
    if j >= d + n {
      assert !IsTool(ms[d + n]) && TailFits(ms, d + n, cap);
    }
  }

  // ---------- Rows that come back ----------

  /** The least the tail from `i` on can come to when the rows with ids in `may` may be redacted. */
  function LeastTail(ms: seq<Message>, i: nat, cap: Cap, may: set<MessageId>): nat
    requires i <= |ms|
    decreases |ms| - i
  {
    if i == |ms| then 0
    else
      (if ms[i].id in may then Min(SizeAt(ms[i], i, |ms|, cap), SizeAt(RedactedMessage(ms[i]), i, |ms|, cap))
       else SizeAt(ms[i], i, |ms|, cap))
      + LeastTail(ms, i + 1, cap, may)
  }

  predicate Helps(ms: seq<Message>, r: nat, cap: Cap)
    requires r < |ms|
  {
    SizeAt(RedactedMessage(ms[r]), r, |ms|, cap) < SizeAt(ms[r], r, |ms|, cap)
  }

  /** The rows whose redaction saves bytes. */
  function Best(ms: seq<Message>, cap: Cap, may: set<MessageId>): set<MessageId> {
    set r | 0 <= r < |ms| && ms[r].id in may && Helps(ms, r, cap) :: ms[r].id
  }

  lemma {:induction false} LeastTailIsLeast(ms: seq<Message>, i: nat, cap: Cap, may: set<MessageId>, ids: set<MessageId>)
    requires i <= |ms| && ids <= may
    ensures LeastTail(ms, i, cap, may) <= TailSize(Redact(ms, ids), i, cap)
    decreases |ms| - i
  {
    hide SizeAt, RedactedMessage;
    if i < |ms| {
      LeastTailIsLeast(ms, i + 1, cap, may, ids);
    }
  }

  lemma {:induction false} BestReachesLeast(ms: seq<Message>, i: nat, cap: Cap, may: set<MessageId>)
    requires i <= |ms| && DistinctRows(ms)
    ensures TailSize(Redact(ms, Best(ms, cap, may)), i, cap) == LeastTail(ms, i, cap, may)
    decreases |ms| - i
  {
    hide SizeAt, RedactedMessage;
    if i < |ms| {
      BestReachesLeast(ms, i + 1, cap, may);
      var best := Best(ms, cap, may);
      if ms[i].id in best {
        var r :| 0 <= r < |ms| && ms[r].id == ms[i].id && ms[r].id in may && Helps(ms, r, cap);
        assert r == i;
      } else {
        assert ms[i].id in may ==> !Helps(ms, i, cap);
      }
    }
  }

  /** Row `j` is part of the history when the rows in `ids` are redacted. */
  predicate KeptUnder(ms: seq<Message>, cap: Cap, ids: set<MessageId>, j: nat) {
    j >= Cut(Redact(ms, ids), cap)
  }

  lemma KeptUnderIff(ms: seq<Message>, cap: Cap, ids: set<MessageId>, j: nat)
    requires j < |ms|
    ensures KeptUnder(ms, cap, ids, j)
       <==> exists i :: 0 <= i <= j && !IsTool(ms[i]) && TailFits(Redact(ms, ids), i, cap)
  {
    hide Cut, TailFits, RedactedMessage;
    var rs := Redact(ms, ids);
    CapKeepsIff(rs, cap, j);
    forall i | 0 <= i < |ms| ensures IsTool(rs[i]) == IsTool(ms[i]) {
      RedactionKeepsRole(ms[i]);
    }
  }

  lemma RedactionKeepsRole(m: Message)
    ensures RedactedMessage(m).role == m.role && RedactedMessage(m).id == m.id
  {
  }

  /** The tail from `i` on fits under the redaction that saves most. */
  predicate CanFit(ms: seq<Message>, i: nat, cap: Cap, may: set<MessageId>)
    requires i < |ms|
  {
    i == |ms| - 1 || LeastTail(ms, i, cap, may) <= cap.maxBytes
  }

  /**
   * A row that the cap leaves out is not out of reach of a probe.  Some redaction of rows in `may` keeps row `j` if
   * and only if, from some row at or before it that is not a tool message, the rows fit when each counts with the
   * smaller of its own size and, where it may be redacted, its redacted size.
   */
  lemma RedactionBringsRowsBack(ms: seq<Message>, cap: Cap, may: set<MessageId>, j: nat)
    requires j < |ms| && DistinctRows(ms)
    ensures (exists ids :: ids <= may && KeptUnder(ms, cap, ids, j))
       <==> exists i :: 0 <= i <= j && !IsTool(ms[i]) && CanFit(ms, i, cap, may)
  {
    hide KeptUnder, Redact, Best, TailSize, LeastTail;
    if ids :| ids <= may && KeptUnder(ms, cap, ids, j) {
      KeptUnderIff(ms, cap, ids, j);
      var i :| 0 <= i <= j && !IsTool(ms[i]) && TailFits(Redact(ms, ids), i, cap);
      LeastTailIsLeast(ms, i, cap, may, ids);
      assert CanFit(ms, i, cap, may);
    }
    if i :| 0 <= i <= j && !IsTool(ms[i]) && CanFit(ms, i, cap, may) {
      var best := Best(ms, cap, may);
      BestIsAllowed(ms, cap, may);
      BestReachesLeast(ms, i, cap, may);
      KeptUnderIff(ms, cap, best, j);
      assert TailFits(Redact(ms, best), i, cap);
      assert KeptUnder(ms, cap, best, j);
    }
  }

  lemma BestIsAllowed(ms: seq<Message>, cap: Cap, may: set<MessageId>)
    ensures Best(ms, cap, may) <= may
  {
  }
}
