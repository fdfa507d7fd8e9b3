/**
 The row store of App.tsx: processing a webhook through the transformation
 service prepends one row on success and leaves the rows alone on failure;
 a confirmed clear empties the store. Rows are never edited in place.

 The service (`transformWebhookData`) is a network call to a generative
 model, so its answer is given with each call: the same payload and
 instructions may fail once and succeed when submitted again. A fresh id and
 the capture time are parameters too.
 */
module Store {
  import opened Wrappers
  import opened Values

  datatype Kind = Success | Error

  datatype Notification = Notification(msg: string, kind: Kind)

  datatype AppState = AppState(rows: seq<ProcessedRow>, isProcessing: bool, notification: Option<Notification>)

  /** What the transformation service answers to one call. Every way it can
      throw (no answer, an empty answer, unparsable text) is `Failed`. */
  datatype Outcome = Transformed(data: FlatRecord) | Failed

  const ProcessedMessage := "Webhook processado e adicionado à planilha com sucesso!"
  const FailedMessage := "Falha ao processar webhook. Verifique o console ou tente novamente."
  const ClearedMessage := "Planilha limpa."

  function Initial(): (s: AppState)
    ensures s.rows == [] && !s.isProcessing && s.notification == None
  {
    AppState([], false, None)
  }

  /** The state between issuing the service call and its answer. */
  function Begin(s: AppState): AppState
  {
    s.(isProcessing := true)
  }

  /** The state once the service has answered. */
  function Complete(s: AppState, json: string, answer: Outcome, id: string, timestamp: string): AppState
  {
    match answer
    case Transformed(data) =>
      s.(rows := [ProcessedRow(id, timestamp, json, data)] + s.rows,
         notification := Some(Notification(ProcessedMessage, Success)),
         isProcessing := false)
    case Failed =>
      s.(notification := Some(Notification(FailedMessage, Error)), isProcessing := false)
  }

  /** `handleProcessWebhook`: the state while the service works on the
      payload and the state after it has answered `answer`. The instructions
      reach only the service, so they enter through its answer. */
  function HandleProcessWebhook(s: AppState, json: string, answer: Outcome, id: string, timestamp: string): (r: (AppState, AppState))
    ensures r.0.isProcessing && r.0.rows == s.rows && r.0.notification == s.notification
    ensures !r.1.isProcessing
    ensures answer.Transformed? ==>
      && r.1.rows == [ProcessedRow(id, timestamp, json, answer.data)] + s.rows
      && |r.1.rows| == |s.rows| + 1
      && r.1.notification == Some(Notification(ProcessedMessage, Success))
    ensures answer.Failed? ==>
      r.1.rows == s.rows && r.1.notification == Some(Notification(FailedMessage, Error))
  {
    var during := Begin(s);
    (during, Complete(during, json, answer, id, timestamp))
  }

  /** `handleClearData`, with the answer to the confirmation dialog. */
  function HandleClearData(s: AppState, confirmed: bool): (r: AppState)
    ensures confirmed ==> r.rows == [] && r.notification == Some(Notification(ClearedMessage, Success))
    ensures !confirmed ==> r == s
    ensures r.isProcessing == s.isProcessing
  {
    if confirmed then s.(rows := [], notification := Some(Notification(ClearedMessage, Success))) else s
  }

  /** Clearing twice is clearing once, and clearing an empty store leaves it empty. */
  lemma ClearIdempotent(s: AppState, confirmed: bool)
    ensures HandleClearData(HandleClearData(s, confirmed), confirmed) == HandleClearData(s, confirmed)
    ensures s.rows == [] ==> HandleClearData(s, confirmed).rows == []
  {
  }

  /** What the user can do to the store: submit a payload, which the service
      answers with `answer`, or answer the clear dialog. */
  datatype Event = Submit(json: string, answer: Outcome, id: string, timestamp: string) | Clear(confirmed: bool)

  function Step(s: AppState, e: Event): AppState
  {
    match e
    case Submit(json, answer, id, timestamp) => HandleProcessWebhook(s, json, answer, id, timestamp).1
    case Clear(confirmed) => HandleClearData(s, confirmed)
  }

  function Run(s: AppState, events: seq<Event>): AppState
    decreases |events|
  {
    if |events| == 0 then s else Run(Step(s, events[0]), events[1..])
  }

  /** A submission the service succeeds on. */
  predicate Adds(e: Event)
  {
    e.Submit? && e.answer.Transformed?
  }

  /** The row a successful submission adds. */
  function NewRow(e: Event): ProcessedRow
    requires Adds(e)
  {
    ProcessedRow(e.id, e.timestamp, e.json, e.answer.data)
  }

  function Additions(events: seq<Event>): nat
  {
    if |events| == 0 then 0 else (if Adds(events[0]) then 1 else 0) + Additions(events[1..])
  }

  predicate NoConfirmedClear(events: seq<Event>)
  {
    forall i :: 0 <= i < |events| ==> events[i] != Clear(true)
  }

  /** Without a confirmed clear, the earlier rows stay, unchanged and in
      order, at the end of the store, and the store grows by one row per
      successful transformation. */
  lemma {:induction false} RunKeepsRows(s: AppState, events: seq<Event>)
    requires NoConfirmedClear(events)
    ensures var rows := Run(s, events).rows;
      && |rows| == |s.rows| + Additions(events)
      && rows[|rows| - |s.rows|..] == s.rows
    decreases |events|
  {
    if |events| > 0 {
      var next := Step(s, events[0]);
      assert NoConfirmedClear(events[1..]) by {
        forall i | 0 <= i < |events| - 1 ensures events[1..][i] != Clear(true) {
          assert events[1..][i] == events[i + 1];
        }
      }
      assert events[0] != Clear(true);
      RunKeepsRows(next, events[1..]);
      var rows := Run(s, events).rows;
      if Adds(events[0]) {
        assert next.rows[1..] == s.rows;
        assert rows[|rows| - |s.rows|..] == next.rows[|next.rows| - |s.rows|..] == next.rows[1..];
      }
    }
  }

  /** Every row in the store was either there before or was created by one
      of the submissions, from its own payload text, id, timestamp and the
      service's record for it. */
  lemma {:induction false} RunRowsProvenance(s: AppState, events: seq<Event>, row: ProcessedRow)
    requires row in Run(s, events).rows
    ensures row in s.rows || exists i :: 0 <= i < |events| && Adds(events[i]) && row == NewRow(events[i])
    decreases |events|
  {
    if |events| > 0 {
      var next := Step(s, events[0]);
      RunRowsProvenance(next, events[1..], row);
      if row !in next.rows {
        var i :| 0 <= i < |events| - 1 && Adds(events[1..][i]) && row == NewRow(events[1..][i]);
        assert events[1..][i] == events[i + 1];
      } else if row !in s.rows {
        assert Adds(events[0]) && row == NewRow(events[0]);
      }
    }
  }

  /** Each call has its own answer: a payload the service failed on once is
      stored when it is submitted again and the service then succeeds. */
  lemma RetryAfterFailure(s: AppState, json: string, data: FlatRecord, id: string, timestamp: string, id': string, timestamp': string)
    ensures Run(s, [Submit(json, Failed, id, timestamp), Submit(json, Transformed(data), id', timestamp')]).rows
      == [ProcessedRow(id', timestamp', json, data)] + s.rows
  {
    var first, second := Submit(json, Failed, id, timestamp), Submit(json, Transformed(data), id', timestamp');
    var events := [first, second];
    var mid := Step(s, first);
    assert mid.rows == s.rows;
    assert events[1..] == [second] && [second][1..] == [];
    assert Run(s, events) == Run(mid, [second]) == Run(Step(mid, second), []);
  }

  predicate UniqueIds(rows: seq<ProcessedRow>)
  {
    forall i, j :: 0 <= i < j < |rows| ==> rows[i].id != rows[j].id
  }

  /** Ids stay unique as long as every submission brings an id not in the store. */
  lemma ProcessKeepsIdsUnique(s: AppState, json: string, answer: Outcome, id: string, timestamp: string)
    requires UniqueIds(s.rows)
    requires forall i :: 0 <= i < |s.rows| ==> s.rows[i].id != id
    ensures UniqueIds(HandleProcessWebhook(s, json, answer, id, timestamp).1.rows)
  {
  }
}
