/**
 The input panel (components/WebhookInput.tsx): the payload and instruction
 editors, the simulated event console, and the gates in front of
 `onProcess`.

 A reaction is the panel's next state together with the `onProcess` call it
 makes, if any. `JSON.parse` succeeding is the `parses` predicate; the clock
 text of a log line is a parameter.
 */
module Panel {
  import opened Wrappers

  datatype Sample = Sample(name: string, json: string, instructions: string)

  datatype PanelState = PanelState(
    jsonInput: string,
    instructions: string,
    error: Option<string>,
    webhookUrl: string,
    autoProcess: bool,
    log: seq<string>)

  /** An `onProcess(json, instructions)` call. */
  datatype Request = Request(json: string, instructions: string)

  datatype Reaction = Reaction(state: PanelState, request: Option<Request>)

  const DefaultInstructions := "Extraia o email do cliente, o nome, a cidade, o valor total (divida por 100 para reais) e uma lista dos produtos separados por vírgula."
  const EmptyBodyError := "O corpo do JSON está vazio."
  const InvalidJsonError := "O JSON fornecido é inválido. Verifique a sintaxe."

  /** How many earlier entries the console keeps when a new one arrives. */
  const KeptEntries := 4

  /** The state before the mount effect runs. */
  function Blank(): PanelState
  {
    PanelState("", DefaultInstructions, None, "", false, [])
  }

  /** The mount effect: a generated endpoint URL and the first sample loaded. */
  function Mount(samples: seq<Sample>, url: string): (s: PanelState)
    requires |samples| > 0
    ensures s.jsonInput == samples[0].json && s.instructions == samples[0].instructions
    ensures s.webhookUrl == url && s.log == [] && s.error == None && !s.autoProcess
  {
    Blank().(webhookUrl := url, jsonInput := samples[0].json, instructions := samples[0].instructions)
  }

  function LogLine(time: string, msg: string): string
  {
    "[" + time + "] " + msg
  }

  /** `addLog`: `[...prev.slice(-4), line]`. */
  function AddLog(log: seq<string>, line: string): (r: seq<string>)
    ensures |r| <= KeptEntries + 1
    ensures |r| == (if |log| < KeptEntries then |log| else KeptEntries) + 1
    ensures r[|r| - 1] == line
    ensures r[..|r| - 1] == log[|log| - (|r| - 1)..]
  {
    var keep := if |log| < KeptEntries then |log| else KeptEntries;
    log[|log| - keep..] + [line]
  }

  /** The last `n` entries of a sequence (all of it when it is shorter). */
  function LastN(s: seq<string>, n: nat): seq<string>
  {
    if |s| <= n then s else s[|s| - n..]
  }

  function AddLogs(log: seq<string>, lines: seq<string>): seq<string>
    decreases |lines|
  {
    if |lines| == 0 then log else AddLogs(AddLog(log, lines[0]), lines[1..])
  }

  /** The console is a sliding window: after any run of new lines it shows the
      last five lines of everything ever logged, oldest first. */
  lemma {:induction false} LogWindow(log: seq<string>, lines: seq<string>)
    requires |log| <= KeptEntries + 1
    ensures AddLogs(log, lines) == LastN(log + lines, KeptEntries + 1)
    decreases |lines|
  {
    if |lines| > 0 {
      var next := AddLog(log, lines[0]);
      assert next == LastN(log + [lines[0]], KeptEntries + 1);
      LogWindow(next, lines[1..]);
      var all := log + lines;
      assert next + lines[1..] == LastN(log + [lines[0]], KeptEntries + 1) + lines[1..];
      LastNAppend(log + [lines[0]], lines[1..], KeptEntries + 1);
      assert log + [lines[0]] + lines[1..] == all;
    }
  }

  lemma LastNAppend(a: seq<string>, b: seq<string>, n: nat)
    ensures LastN(LastN(a, n) + b, n) == LastN(a + b, n)
  {
  }

  /** `handleSubmit`: clears the error, then calls `onProcess` with the
      editors' text if it parses, or reports invalid JSON if it does not. */
  function HandleSubmit(s: PanelState, parses: string -> bool): (r: Reaction)
    ensures parses(s.jsonInput) <==> r.request.Some?
    ensures r.request.Some? ==> r.request.value == Request(s.jsonInput, s.instructions) && r.state.error == None
    ensures r.request.None? ==> r.state.error == Some(InvalidJsonError)
    ensures r.state.jsonInput == s.jsonInput && r.state.instructions == s.instructions && r.state.log == s.log
    ensures r.state.webhookUrl == s.webhookUrl && r.state.autoProcess == s.autoProcess
  {
    var cleared := s.(error := None);
    if parses(cleared.jsonInput) then Reaction(cleared, Some(Request(cleared.jsonInput, cleared.instructions)))
    else Reaction(cleared.(error := Some(InvalidJsonError)), None)
  }

  /** The execute button: disabled while processing; an empty editor is
      refused with its own error before anything is logged or parsed;
      otherwise a log line and `handleSubmit`. */
  function Execute(s: PanelState, isProcessing: bool, parses: string -> bool, time: string): (r: Reaction)
    ensures isProcessing ==> r == Reaction(s, None)
    ensures !isProcessing && s.jsonInput == "" ==> r == Reaction(s.(error := Some(EmptyBodyError)), None)
    ensures r.request.Some? <==> !isProcessing && s.jsonInput != "" && parses(s.jsonInput)
    ensures r.request.Some? ==> r.request.value == Request(s.jsonInput, s.instructions)
    ensures !isProcessing && s.jsonInput != "" ==>
      && r.state.log == AddLog(s.log, LogLine(time, "Iniciando transformação manual..."))
      && r.state.error == (if parses(s.jsonInput) then None else Some(InvalidJsonError))
      && r.state.jsonInput == s.jsonInput && r.state.instructions == s.instructions
      && r.state.webhookUrl == s.webhookUrl && r.state.autoProcess == s.autoProcess
  {
    if isProcessing then Reaction(s, None)
    else if s.jsonInput == "" then Reaction(s.(error := Some(EmptyBodyError)), None)
    else HandleSubmit(s.(log := AddLog(s.log, LogLine(time, "Iniciando transformação manual..."))), parses)
  }

  /** The console lines a simulated delivery of the sample `name` to `url`
      writes: the delivery, the payload's name, and the auto-trigger notice
      when auto-processing is on. */
  function SimulatedLines(url: string, name: string, autoProcess: bool, time: string): (r: seq<string>)
    ensures |r| == if autoProcess then 3 else 2
  {
    [LogLine(time, "POST " + url + " - 200 OK"), LogLine(time, "Payload recebido: " + name)]
      + (if autoProcess then [LogLine(time, "Auto-triggering transformation...")] else [])
  }

  /** Adding a run of lines is adding the first, then the rest. */
  lemma AddLogsCons(log: seq<string>, line: string, rest: seq<string>)
    ensures AddLogs(log, [line] + rest) == AddLogs(AddLog(log, line), rest)
  {
    assert ([line] + rest)[1..] == rest;
  }

  /** `handleSimulateEvent`: loads the sample into the editors, logs the
      simulated delivery, and when auto-processing is on logs that too and
      calls `onProcess` with the sample itself. */
  function SimulateEvent(s: PanelState, samples: seq<Sample>, index: int, time: string): (r: Reaction)
    requires 0 <= index < |samples|
    ensures r.state.jsonInput == samples[index].json
    ensures r.state.instructions == samples[index].instructions
    ensures r.request.Some? <==> s.autoProcess
    ensures r.request.Some? ==> r.request.value == Request(samples[index].json, samples[index].instructions)
    ensures r.state.error == s.error && r.state.autoProcess == s.autoProcess && r.state.webhookUrl == s.webhookUrl
    ensures r.state.log == AddLogs(s.log, SimulatedLines(s.webhookUrl, samples[index].name, s.autoProcess, time))
    ensures |r.state.log| <= KeptEntries + 1
  {
    var sample := samples[index];
    var lines := SimulatedLines(s.webhookUrl, sample.name, s.autoProcess, time);
    var loaded := s.(jsonInput := sample.json, instructions := sample.instructions);
    var delivered := AddLog(s.log, lines[0]);
    var log := AddLog(delivered, lines[1]);
    AddLogsCons(s.log, lines[0], lines[1..]);
    assert [lines[0]] + lines[1..] == lines;
    AddLogsCons(delivered, lines[1], lines[2..]);
    assert [lines[1]] + lines[2..] == lines[1..];
    if s.autoProcess then
      AddLogsCons(log, lines[2], []);
      assert lines[2..] == [lines[2]] + [];
      Reaction(loaded.(log := AddLog(log, lines[2])), Some(Request(sample.json, sample.instructions)))
    else
      Reaction(loaded.(log := log), None)
  }

  /** After a simulated event the console shows the last five lines of the
      earlier console followed by the event's own lines. */
  lemma SimulatedWindow(s: PanelState, samples: seq<Sample>, index: int, time: string)
    requires 0 <= index < |samples| && |s.log| <= KeptEntries + 1
    ensures SimulateEvent(s, samples, index, time).state.log
      == LastN(s.log + SimulatedLines(s.webhookUrl, samples[index].name, s.autoProcess, time), KeptEntries + 1)
  {
    LogWindow(s.log, SimulatedLines(s.webhookUrl, samples[index].name, s.autoProcess, time));
  }

  /** The reset button: disabled while processing; otherwise empties the
      payload editor, restores the default instructions and logs the reset. */
  function Reset(s: PanelState, isProcessing: bool, time: string): (r: PanelState)
    ensures isProcessing ==> r == s
    ensures !isProcessing ==> r.jsonInput == "" && r.instructions == DefaultInstructions
    ensures !isProcessing ==> r.log == AddLogs(s.log, [LogLine(time, "Reset input manual")])
    ensures r.error == s.error && r.autoProcess == s.autoProcess && r.webhookUrl == s.webhookUrl
  {
    if isProcessing then s
    else
      AddLogsCons(s.log, LogLine(time, "Reset input manual"), []);
      s.(jsonInput := "", instructions := DefaultInstructions, log := AddLog(s.log, LogLine(time, "Reset input manual")))
  }

  function ToggleAutoProcess(s: PanelState): (r: PanelState)
    ensures r.autoProcess != s.autoProcess
    ensures r.jsonInput == s.jsonInput && r.instructions == s.instructions && r.error == s.error
    ensures r.webhookUrl == s.webhookUrl && r.log == s.log
  {
    s.(autoProcess := !s.autoProcess)
  }

  /** After a reset the execute button refuses to call `onProcess`, whatever
      the parser would say, and reports the empty body. */
  lemma ResetThenExecute(s: PanelState, parses: string -> bool, time: string, time': string)
    ensures var r := Execute(Reset(s, false, time), false, parses, time');
      r.request == None && r.state.error == Some(EmptyBodyError)
  {
  }
}
