# Webhook transformer: row store, column union and CSV export

This project models, in Dafny, the logic of a small browser application.
The application takes a webhook payload and turns it into a flat record of
primitive values by asking a generative transformation service. It collects
the records in a table, newest first, and exports that table as CSV.

The model covers three pieces:

- **The spreadsheet engine** (`components/SpreadsheetView.tsx`):
  - the column set, which is the sorted union of every row's keys (`Columns`);
  - the CSV export, with an unquoted header and quoted data cells whose inner
    quotes are doubled (`CsvWriter`);
  - the on-screen table, with its cell display and `#` numbering (`Table`).
- **The row store** (`App.tsx`): a successful transformation prepends one row.
  A failure leaves the rows alone. A confirmed clear empties the store. The
  `isProcessing` flag brackets the service call (`Store`).
- **The input panel** (`components/WebhookInput.tsx`):
  - the five-line event console;
  - the execute-button and `handleSubmit` gates in front of `onProcess`;
  - the simulated webhook events;
  - the reset button (`Panel`).

`Pipeline` connects the panel's `onProcess` call to the store, as `App.tsx`
wires them.

Each operation is paired with something independent to check it against:

- **CSV export.** `CsvReader` is a reader, written separately from the
  writer, for the subset of CSV the export produces:
  - every data field is quoted, and a doubled quote inside a field stands for
    one quote (section 2, rules 5 and 7 of RFC 4180);
  - fields are separated by commas and records by LF line breaks;
  - the header line is split at commas.

  `CsvRoundTrip` proves that reading an export back gives the header names
  and every row's cell texts exactly.
- **Column union.** Its partner is a set comprehension. A uniqueness lemma
  shows that the sorted order does not depend on the order in which keys
  were inserted.
- **Store.** Lemmas over arbitrary event sequences show that existing rows
  are never edited in place, and that every stored row came from a
  successful submission.
- **Event console.** Its partner is the "last five of everything" window.

The transformation service is a network call, so its answer to each call is
a parameter of type `Outcome`: `Transformed(record)` or `Failed`. The same
payload may fail once and succeed when submitted again. These are also
parameters:

- row ids;
- capture timestamps;
- console clock texts;
- the user's answer to the confirmation dialog;
- whether `JSON.parse` accepts a text (`parses`).

Numbers are integers written in decimal, which is how JavaScript writes the
safe integers (magnitude at most 2^53 - 1).

## Behaviour worth noting

- **The service's answer is stored as it is.** No check runs on the record
  that `transformWebhookData` returns (`App.tsx:29`). The model's record type
  admits only the four primitive kinds that `types.ts:5` declares; other
  answers are under "Left out".
- **The header is not quoted.** It is `Timestamp,ID,<keys>`, comma-joined
  (`components/SpreadsheetView.tsx:30`).
- **Exported booleans are `true`/`false`**, because the export uses
  `String(val)` (`components/SpreadsheetView.tsx:37`). Only the on-screen
  table shows `TRUE`/`FALSE` (`components/SpreadsheetView.tsx:112`).
- **Simulated events skip the parse check.** A simulated event with
  auto-processing on calls `onProcess` without the `JSON.parse` check that
  the execute button applies (`components/WebhookInput.tsx:71-76`).
- **`handleClearData` always notifies.** A confirmed clear sets the
  "Planilha limpa." notification even when the store was already empty. The
  clear button is shown only when there are rows
  (`components/SpreadsheetView.tsx:11-19`), so the screen never reaches that
  case.
- **Timestamps and ids are not escaped** in the export. They are wrapped in
  quotes only (`components/SpreadsheetView.tsx:40`).

## Model

| member | source | states |
|---|---|---|
| `Values.ToText` | components/SpreadsheetView.tsx:37 | `String(val)` of a primitive. A string is written verbatim and a boolean as `true`/`false`. A number is written as its decimal text, which reads back as the same number; for safe integers that is the text `String` gives. |
| `Values.IntToText` | components/SpreadsheetView.tsx:37 | The decimal text of a number is non-empty and parses back to the number. It starts with `-` exactly when the number is negative, and every other character is a digit. There are no leading zeros: the only text whose first digit is `0` is `0` itself. |
| `Columns.AllKeys` | components/SpreadsheetView.tsx:22-24 | The columns are strictly sorted, with no duplicates. Their elements are exactly the keys that occur in some row's record. |
| `Columns.RowKeysCovered` | components/SpreadsheetView.tsx:22-24 | Every row's key set is contained in the column set. |
| `Columns.ColumnWitness` | components/SpreadsheetView.tsx:22-24 | A key is a column if and only if some row's record holds it. |
| `Columns.UnionPrepend` | components/SpreadsheetView.tsx:22-24 | Prepending a row adds exactly that row's keys to the column set. |
| `StringOrder.SortedUnique` | components/SpreadsheetView.tsx:24 | Two strictly sorted sequences with the same elements are equal, so the sorted column order is determined by the key set alone. |
| `CsvWriter.Escape` | components/SpreadsheetView.tsx:38 | Quote doubling adds one character per double quote in the text. Text without a quote is left as it is. |
| `CsvWriter.EscapeAppend` | components/SpreadsheetView.tsx:38 | The global replace works one character at a time: escaping a concatenation is the concatenation of the escapes. |
| `CsvWriter.ExportCell` | components/SpreadsheetView.tsx:35-38 | A key that is absent or null in a row exports the empty quoted cell `""` instead of failing. |
| `CsvWriter.ExportCells` | components/SpreadsheetView.tsx:34-39 | One cell per column, in column order. Cell j is the quoted, escaped text of the row's value for column j. |
| `CsvWriter.HeaderShape` | components/SpreadsheetView.tsx:30 | The header is `Timestamp,ID`, then a comma and a column name for each column in order, with no quoting. |
| `CsvWriter.DataCells` | components/SpreadsheetView.tsx:33-41 | A data line has exactly 2 + (number of columns) cells. The first two are the timestamp and the id, wrapped in quotes but not escaped. Then comes one escaped cell per column. |
| `CsvWriter.DataLines` | components/SpreadsheetView.tsx:33 | There is one data line per row, in store order (newest first). |
| `CsvWriter.ExportCsv` | components/SpreadsheetView.tsx:26-43 | Export produces nothing exactly when there are no rows. Otherwise the document starts with the header line and a line break. It ends with the closing quote of the last cell, with no trailing line break. The columns it uses are the sorted column union. |
| `CsvWriter.DocumentShape` | components/SpreadsheetView.tsx:43 | With at least one row, the document is the header, a line break, then the data lines. Its last character is a quote. |
| `CsvWriter.LineEndsInQuote` | components/SpreadsheetView.tsx:40 | Every data line is non-empty and ends with the closing quote of its last cell. |
| `CsvRoundTrip.ReadEscaped` | components/SpreadsheetView.tsx:38 | Undoing the quote doubling of section 2, rule 7 of RFC 4180 recovers the cell text exactly. |
| `CsvRoundTrip.ExportCellReadBack` | components/SpreadsheetView.tsx:37-38 | A single exported cell reads back as one field. That field is `String(val)`, or empty when the value is null or absent. |
| `CsvRoundTrip.DataLineReadBack` | components/SpreadsheetView.tsx:33-41 | A data line reads back as exactly the timestamp, the id and the text of each column's cell. |
| `CsvRoundTrip.LinesReadBack` | components/SpreadsheetView.tsx:33-43 | The data lines, each after a line break, read back as one record per row, in store order. |
| `CsvRoundTrip.HeaderReadBack` | components/SpreadsheetView.tsx:30 | The header is one line. Split at commas, it gives `Timestamp`, `ID` and the columns in order. |
| `CsvRoundTrip.ExportReadBack` | components/SpreadsheetView.tsx:30-43 | Reading an export back gives exactly one header line and one record per row, in store order. Each record holds the row's timestamp, its id and its cell texts. |
| `Table.DisplayCells` | components/SpreadsheetView.tsx:103-123 | The table shows one cell per column, in column order. |
| `Table.Body` | components/SpreadsheetView.tsx:95-102 | Each table line carries the row's timestamp and its display cells. The row at `index` is labelled `data.length - index`. |
| `Table.Render` | components/SpreadsheetView.tsx:11-19 | With no rows the placeholder is shown. Otherwise the header is `#`, `Timestamp` and the columns, with one line per row and one cell per column. |
| `Table.RowLabels` | components/SpreadsheetView.tsx:98 | The `#` labels run from the row count down to 1. They strictly decrease down the table, so no two rows share a label. |
| `Table.LabelStableOnPrepend` | components/SpreadsheetView.tsx:98 | When a newer row is prepended, every existing row keeps its label and the new row gets the next number. |
| `Table.DisplayVersusExport` | components/SpreadsheetView.tsx:104-113 | A null or absent value is `-` on screen and empty in the file. A boolean is `TRUE`/`FALSE` on screen and `true`/`false` in the file. Strings and numbers are the same in both. |
| `Store.Initial` | App.tsx:11-13 | The store starts with no rows, not processing, and with no notification. |
| `Store.HandleProcessWebhook` | App.tsx:20-44 | While the service works, `isProcessing` is set and the rows and the notification are as before. Afterwards `isProcessing` is cleared on both paths. On success the rows are the new row followed by the old rows, one more than before. That row holds the submitted text verbatim and the service's record unchanged, and a success notification is set. On failure the rows are unchanged and the error notification is set. |
| `Store.HandleClearData` | App.tsx:46-51 | A confirmed clear empties the rows and sets the "cleared" notice. A declined clear changes nothing. Neither touches `isProcessing`. |
| `Store.ClearIdempotent` | App.tsx:46-51 | Clearing twice is the same as clearing once, and clearing an empty store leaves it empty. |
| `Store.RunKeepsRows` | App.tsx:32 | Over any run of submissions with no confirmed clear, the earlier rows stay at the end of the store, unchanged and in order. The store grows by exactly one row per successful transformation. |
| `Store.RunRowsProvenance` | App.tsx:25-32 | Every stored row either was there before or was built by a successful submission, from that submission's own text, id, timestamp and record. |
| `Store.RetryAfterFailure` | App.tsx:20-44 | Each call gets its own answer. A payload the service failed on is stored when it is submitted again and the service then succeeds. |
| `Store.ProcessKeepsIdsUnique` | App.tsx:26 | If every new id is fresh, ids stay unique across the store. |
| `Panel.Mount` | components/WebhookInput.tsx:23-32 | On mount the editors hold the first sample and the endpoint URL is set. The console is empty, there is no error, and auto-processing is off. |
| `Panel.AddLog` | components/WebhookInput.tsx:40-43 | After adding a line the console has at most five entries, and the new line is last. Before it come the last (at most four) earlier entries, in their original order. |
| `Panel.LogWindow` | components/WebhookInput.tsx:42 | After any sequence of added lines, the console shows the last five lines of everything ever logged, oldest first. |
| `Panel.HandleSubmit` | components/WebhookInput.tsx:45-53 | The error is cleared first. `onProcess(jsonInput, instructions)` is called if and only if the text parses. Otherwise the invalid-JSON error is set. The editors, the console, the endpoint URL and the auto-process flag are unchanged. |
| `Panel.Execute` | components/WebhookInput.tsx:242-251 | While processing, the button does nothing. With an empty editor it sets the empty-body error and never calls `onProcess`. Otherwise it logs "Iniciando transformação manual...". The error is then cleared if the text parses, and set to the invalid-JSON message if not. The editors, the endpoint URL and the auto-process flag are untouched. `onProcess` is called if and only if the button is enabled, the editor is non-empty and its text parses, and then with the editors' text. |
| `Panel.SimulateEvent` | components/WebhookInput.tsx:55-77 | The editors take the sample's text and instructions. `onProcess` is called with them if and only if auto-processing is on. The console gains the delivery line and the payload-name line, plus the auto-trigger line when auto-processing is on, and stays within five entries. The error, the auto-process flag and the endpoint URL are untouched. |
| `Panel.SimulatedWindow` | components/WebhookInput.tsx:55-77 | After a simulated event, the console is the last five lines of the earlier console followed by the event's own lines. |
| `Panel.Reset` | components/WebhookInput.tsx:230-241 | While processing, the button does nothing. Otherwise it empties the payload editor, restores the default instructions and logs "Reset input manual". The error, the auto-process flag and the endpoint URL are untouched. |
| `Panel.ToggleAutoProcess` | components/WebhookInput.tsx:131 | The toggle flips the auto-process flag. The editors, the error, the endpoint URL and the console are untouched. |
| `Panel.ResetThenExecute` | components/WebhookInput.tsx:230-250 | After a reset, the execute button reports the empty body and does not call `onProcess`, whatever the parser would say. |
| `Pipeline.ExecuteStoresEditorText` | App.tsx:132 | The button is disabled by the store's own `isProcessing` flag. Pressing execute stores exactly one row when the store is not processing, the editor is non-empty and parses, and the service succeeds. That row holds the editor's text verbatim and the service's record. In every other case the rows are unchanged. |
| `Pipeline.SimulatedEventStoresSample` | components/WebhookInput.tsx:71-76 | A simulated event with auto-processing on stores the sample's own text when the service succeeds, without a parse check. Otherwise the rows are unchanged. |
| `Pipeline.ExportDeterministic` | components/SpreadsheetView.tsx:22-43 | Any two strictly sorted column sequences of the same rows are equal, so the export of a store is unique. |

## Left out

- **The transformation service** (`services/geminiService.ts`) is a network
  call. Its answer to each call is an `Outcome` parameter. Its empty-answer
  and parse failures are folded into `Failed`.
- **Only answers that are objects of primitive values are modelled.** The
  source stores whatever `JSON.parse` returns
  (`services/geminiService.ts:52`, `App.tsx:29`), and the model leaves the
  other cases out:
  - a nested object is exported as `[object Object]`, and an array as its
    elements comma-joined (`String(val)`,
    `components/SpreadsheetView.tsx:37`);
  - a `null` answer makes `Object.keys(row.data)` throw while the table is
    drawn (`components/SpreadsheetView.tsx:23`).
- **`JSON.parse`** is the `parses` predicate on texts. JSON syntax is not
  modelled.
- **Time and identity sources are parameters:** `crypto.randomUUID`,
  `new Date().toISOString()`, `toLocaleTimeString()`, and the endpoint URL.
  `Panel.Mount` takes the whole URL, so the fixed
  `https://api.transformer.ai/v1/hooks/` prefix and the `Math.random` suffix
  (`components/WebhookInput.tsx:25-26`) are not modelled. Nothing is
  assumed about their
  uniqueness or order. The one exception is `Store.ProcessKeepsIdsUnique`,
  which takes fresh ids as a precondition.
- **Browser and React plumbing is not modelled:**
  - the Blob, object-URL and link download of the export;
  - the clipboard;
  - the toast timeout;
  - the 300 ms editor flash and the 500 ms delay before the auto-triggered
    `onProcess`;
  - log scrolling;
  - the code-viewer modal (`components/ServerCodeViewer.tsx`);
  - the tab switching in `App.tsx`.

  The `confirm` dialog is modelled as a boolean answer.
- **Overlapping transformations are not modelled.** The auto-process path
  does not check `isProcessing`, so two service calls can be in flight at
  once; that is concurrency. `Store.HandleProcessWebhook` models one call,
  from its start to its answer.
- **`services/mockData.ts` is not modelled.** It holds static sample data,
  and the samples are a parameter.
- **Editing the editors, and the async gap in `handleSubmit`, are not
  modelled.** Typing into the editors is direct assignment of `jsonInput`
  and `instructions`. `handleSubmit` also catches a rejection of
  `onProcess`, but `handleProcessWebhook` catches every failure itself and
  never rejects.
- `Values.IntToText`: numbers are unbounded integers written with all their
  digits, which matches `String(n)` only for safe integers, of magnitude at
  most 2^53 - 1 (`Number.MAX_SAFE_INTEGER`). A larger integer in the service's
  answer is rounded to the nearest double, and `String` writes the shortest
  digits that read back as that double, padded with zeros: `String(2**60)` is
  `"1152921504606847000"`, where the model writes `"1152921504606846976"`.
  JavaScript's exponent form for magnitudes of 1e21 and above, and fractional
  numbers, are not modelled either.
- `Values.ToText`: writes a number through `Values.IntToText`, so it agrees
  with `String(val)` only for safe integers, for the reason above.
- `CsvWriter.ExportCell`: a key the record does not hold itself counts as
  missing and exports `""`. In the source, `row.data[key]` also finds the
  members every object inherits (`constructor`, `toString`, `valueOf`,
  `hasOwnProperty`, `__proto__`, …). So when one row has a column named
  `constructor`, another row without it exports the text of
  `Object.prototype.constructor` there (`components/SpreadsheetView.tsx:35-37`).
- `Table.DisplayCells`: for the same reason, such a column shows `-`, where
  the source shows the inherited member's text
  (`components/SpreadsheetView.tsx:104-120`).
- `Columns.AllKeys`: the order is lexicographic by Unicode code point.
  JavaScript's default `sort` compares UTF-16 code units, which gives a
  different order only for keys with characters outside the Basic
  Multilingual Plane.
- `Table.Body`: the timestamp column holds the stored timestamp text. The
  `toLocaleTimeString` formatting of it
  (`components/SpreadsheetView.tsx:101`) is left out.
- `Panel.SimulateEvent`: one clock text is used for all of the event's
  console lines. The source reads the clock once per `addLog` call.
- `CsvRoundTrip.ExportReadBack`: the round trip needs two preconditions,
  because the source does not quote in these places:
  - no timestamp or id holds a double quote, because those two cells are
    not escaped;
  - no column name holds a comma or a line break, because the header is
    not quoted.

  With such inputs the file the source writes is not well-formed CSV.
  Generated UUIDs and ISO timestamps never hold these characters; column
  names come from the service and might.
