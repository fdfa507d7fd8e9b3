/**
 The wiring of App.tsx: the panel's `onProcess` is `handleProcessWebhook`,
 and the spreadsheet is drawn and exported from the store's rows.
 */
module Pipeline {
  import opened Values
  import opened StringOrder
  import Columns
  import CsvWriter
  import Store
  import Panel

  /** Hands the panel's `onProcess` call, if it made one, to the store;
      `answer` is the service's answer to that call. */
  function Deliver(app: Store.AppState, reaction: Panel.Reaction, answer: Store.Outcome, id: string, timestamp: string): Store.AppState
  {
    match reaction.request
    case None => app
    case Some(Request(json, _)) => Store.HandleProcessWebhook(app, json, answer, id, timestamp).1
  }

  /** Pressing execute stores at most one row: exactly one, when the store is
      not processing, the editor is non-empty and parses, and the service
      succeeds, and then its payload is the editor's text verbatim and its
      record is the service's answer, unchanged. In every other case the rows
      stay as they were. The button is disabled by the store's own flag. */
  lemma ExecuteStoresEditorText(panel: Panel.PanelState, parses: string -> bool, time: string,
                                app: Store.AppState, answer: Store.Outcome, id: string, timestamp: string)
    ensures var r := Panel.Execute(panel, app.isProcessing, parses, time);
      var after := Deliver(app, r, answer, id, timestamp);
      if !app.isProcessing && panel.jsonInput != "" && parses(panel.jsonInput) && answer.Transformed? then
        after.rows == [ProcessedRow(id, timestamp, panel.jsonInput, answer.data)] + app.rows
      else
        after.rows == app.rows
  {
  }

  /** A simulated event with auto-processing on feeds the sample itself to
      the store, without the parse check the execute button applies. */
  lemma SimulatedEventStoresSample(panel: Panel.PanelState, samples: seq<Panel.Sample>, index: int, time: string,
                                   app: Store.AppState, answer: Store.Outcome, id: string, timestamp: string)
    requires 0 <= index < |samples|
    ensures var r := Panel.SimulateEvent(panel, samples, index, time);
      var after := Deliver(app, r, answer, id, timestamp);
      if panel.autoProcess && answer.Transformed? then
        after.rows == [ProcessedRow(id, timestamp, samples[index].json, answer.data)] + app.rows
      else
        after.rows == app.rows
  {
  }

  /** Exporting the same rows twice gives the same document: the columns are
      the one strictly sorted sequence of their union. */
  lemma ExportDeterministic(rows: seq<ProcessedRow>, keys: seq<string>, keys': seq<string>)
    requires StrictlySorted(keys) && Elems(keys) == Columns.ColumnUnion(rows)
    requires StrictlySorted(keys') && Elems(keys') == Columns.ColumnUnion(rows)
    ensures keys == keys'
    ensures CsvWriter.Document(rows, keys) == CsvWriter.Document(rows, keys')
  {
    SortedUnique(keys, keys');
  }
}
