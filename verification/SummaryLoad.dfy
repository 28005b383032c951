/** Loading a history that has a summary on file: the preserved head, the summary, and the live rows after it. */
module SummaryLoad {
  import opened Prelude
  import opened Messages
  import opened Pairing
  import opened PairingProofs
  import opened PairingStability
  import opened History
  import opened HistoryProofs
  import opened Threads

  function SummaryMessage(text: string): Message {
    Message(Fresh, User, [Text(text)])
  }

  /** Head and live rows are redacted; only the live rows are capped and collapsed, and no window is cut. */
  function LoadedAround(head: seq<Message>, text: string, live: seq<Message>, redacted: set<MessageId>, cfg: Limits)
      : seq<Message>
  {
    Redact(head, redacted) + [SummaryMessage(text)] + Loaded(live, redacted, cfg.(conversation := 0))
  }

  // ---------- A tool message behind the summary ----------

  lemma {:induction false} SameBehind(before: seq<Message>, a: seq<Message>, b: seq<Message>, used: set<string>)
    requires a != [] && b != [] && !IsTool(a[0]) && !IsTool(b[0])
    requires forall used :: Repaired(a, used) == Repaired(b, used)
    ensures Repaired(before + a, used) == Repaired(before + b, used)
    decreases |before|
  {
    hide Calls, Answer;
    if before == [] {
      assert before + a == a && before + b == b;
    } else {
      var x, y := before + a, before + b;
      assert x[0] == y[0] == before[0] && x[1..] == before[1..] + a && y[1..] == before[1..] + b;
      var used' := used + SetOf(Calls(before[0]));
      if |before| > 1 {
        assert x[1] == y[1] == before[1] && x[2..] == before[2..] + a && y[2..] == before[2..] + b;
        SameBehind(before[2..], a, b, used');
      } else {
        assert x[1] == a[0] && y[1] == b[0];
      }
      SameBehind(before[1..], a, b, used);
      SameBehind(before[1..], a, b, used');
    }
  }

  /** The gate drops a tool message that leads the head or the live rows. */
  lemma LeadersGo(head: seq<Message>, summary: Message, live: seq<Message>)
    requires !IsTool(summary) && Calls(summary) == []
    ensures Gate(head + [summary] + live) == Gate(Trimmed(head) + ([summary] + Trimmed(live)))
  {
    hide Calls, Repaired;
    Glue(head, [summary], live);
    forall used ensures Repaired([summary] + live, used) == Repaired([summary] + Trimmed(live), used) {
      PassSpeech(summary, live, used);
      PassSpeech(summary, Trimmed(live), used);
      LeaderGoes(live, [], used);
      assert live + [] == live && Trimmed(live) + [] == Trimmed(live);
    }
    SameBehind(head, [summary] + live, [summary] + Trimmed(live), {});
    LeaderGoes(head, [summary] + Trimmed(live), {});
  }

  lemma LeaderGoes(ms: seq<Message>, rest: seq<Message>, used: set<string>)
    ensures Repaired(ms + rest, used) == Repaired(Trimmed(ms) + rest, used)
  {
    if ms != [] && IsTool(ms[0]) {
      assert (ms + rest)[1..] == ms[1..] + rest;
    }
  }

  // ---------- Two slices around a summary ----------

  /** Where a slice starts once a leading tool message is gone. */
  function Start(rows: seq<Message>, from: nat, till: nat): (start: nat)
    requires from <= till <= |rows|
    ensures from <= start <= till && rows[start..till] == Trimmed(rows[from..till])
  {
    if from < till && IsTool(rows[from]) then from + 1 else from
  }

  lemma StartsRight(rows: seq<Message>, from: nat, till: nat)
    requires Thread(rows) && from <= till <= |rows|
    ensures var s := Start(rows, from, till); s < till ==> !IsTool(rows[s])
  {
    hide Thread;
    if from < till && IsTool(rows[from]) && from + 1 < till {
      NoToolBehindTool(rows, from);
    }
  }

  lemma SlicesMakeThread(rows: seq<Message>, s: nat, b: nat, t: nat, d: nat, summary: Message)
    requires Thread(rows) && s <= b <= t <= d <= |rows| && (s < b ==> !IsTool(rows[s])) && (t < d ==> !IsTool(rows[t]))
    requires !IsTool(summary) && Calls(summary) == []
    ensures Thread(rows[s..b] + ([summary] + rows[t..d]))
  {
    hide Calls, ResultIds, NoDuplicates;
    var ms, n := rows[s..b] + ([summary] + rows[t..d]), b - s;
    forall i | 0 <= i < |ms| ensures PlacedAt(ms, i) && NewAt(ms, i) {
      assert forall k :: 0 <= k < n ==> ms[k] == rows[s + k];
      assert forall k :: n < k < |ms| ==> ms[k] == rows[t + (k - n - 1)];
      assert ms[n] == summary;
      assert SetOf(Calls(summary)) == {};
      if i < n {
        assert PlacedAt(rows, s + i) && NewAt(rows, s + i);
      } else if i > n {
        assert PlacedAt(rows, t + (i - n - 1)) && NewAt(rows, t + (i - n - 1));
      }
    }
  }

  /** Around a summary the gate drops a tool message that leads a slice, and fills in the calls without a reply. */
  lemma TwoSlices(rows: seq<Message>, a: nat, b: nat, c: nat, d: nat, summary: Message)
    requires Thread(rows) && a <= b <= c <= d <= |rows|
    requires !IsTool(summary) && Calls(summary) == []
    ensures Gate(rows[a..b] + [summary] + rows[c..d])
         == Filled(Trimmed(rows[a..b])) + [summary] + Filled(Trimmed(rows[c..d]))
  {
    hide Gate, Thread, Calls, Filled;
    var s, t := Start(rows, a, b), Start(rows, c, d);
    var head, live := rows[s..b], rows[t..d];
    StartsRight(rows, a, b);
    StartsRight(rows, c, d);
    LeadersGo(rows[a..b], summary, rows[c..d]);
    SlicesMakeThread(rows, s, b, t, d, summary);
    GateFills(head + ([summary] + live));
    FilledAppend(head, [summary] + live);
    FilledStep([summary] + live);
    assert ([summary] + live)[1..] == live;
    Glue(Filled(head), [summary], Filled(live));
  }

  /** If the rows pair up, a slice has at most one call to fill in, at its end. */
  lemma ValidSlicesClose(rows: seq<Message>, from: nat, till: nat)
    requires WireValid(rows) && AnsweredOnce(rows) && from <= till <= |rows|
    ensures Filled(Trimmed(rows[from..till])) == Closed(Trimmed(rows[from..till]))
  {
    hide Calls, ResultIds, WireValid, AnsweredOnce, Thread, Filled, Closed;
    ValidIsThread(rows);
    var s := Start(rows, from, till);
    var ms := rows[s..till];
    forall i | OpenAt(ms, i) ensures i + 1 == |ms| {
      assert !OpenAt(rows, s + i);
      assert ms[i] == rows[s + i];
    }
    FilledAtEnd(ms);
  }

  /**
   * Whatever slices of a thread the head and the live rows are, and whatever is redacted, capped and collapsed, the
   * request is the head, the summary and a tail of the live rows with every id in place: the gate drops only a tool
   * message that leads a slice, and invents results only for calls without a reply.
   */
  lemma SummaryNeedsLittleRepair(
      rows: seq<Message>, a: nat, b: nat, c: nat, d: nat, text: string, redacted: set<MessageId>, cfg: Limits)
      returns (cut: nat)
    requires Thread(rows) && a <= b <= c <= d <= |rows|
    ensures c <= cut <= d
    ensures Shapes(Gate(LoadedAround(rows[a..b], text, rows[c..d], redacted, cfg)))
         == Shapes(Filled(Trimmed(rows[a..b])) + [SummaryMessage(text)] + Filled(Trimmed(rows[cut..d])))
  {
    hide Thread, Loaded, Gate, Shape, Filled, Trimmed, Redact;
    var summary := SummaryMessage(text);
    var tail := LoadedIsTail(rows[c..d], redacted, cfg.(conversation := 0));
    cut := c + tail;
    assert rows[c..d][tail..] == rows[cut..d];
    RedactKeepsShape(rows[a..b], redacted);
    var head, live := Redact(rows[a..b], redacted), Loaded(rows[c..d], redacted, cfg.(conversation := 0));
    ShapesAppend(head, [summary]);
    ShapesAppend(head + [summary], live);
    ShapesAppend(rows[a..b], [summary]);
    ShapesAppend(rows[a..b] + [summary], rows[cut..d]);
    SameGate(head + [summary] + live, rows[a..b] + [summary] + rows[cut..d]);
    TwoSlices(rows, a, b, cut, d, summary);
  }

  lemma SameGate(a: seq<Message>, b: seq<Message>)
    requires Shapes(a) == Shapes(b)
    ensures Shapes(Gate(a)) == Shapes(Gate(b))
  {
    GateShape(a, b);
  }
}
