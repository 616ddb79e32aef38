/** The supervisor: parse the planner's answer, dispatch its subtasks, join the
    replies (crates/roos-core/src/supervisor.rs). */
module Supervisor {
  import opened Common
  import opened Completion
  import Bus = AgentBus
  import BusRuns

  datatype Subtask = Subtask(agent: string, task: string)

  /** The JSON decoder for a list of subtasks; the error is its message. */
  type Decoder = string -> Result<seq<Subtask>, string>

  datatype AgentError = ProviderError(message: string) | ConfigurationError(message: string)

  /** Slicing a string outside of its bounds panics. */
  datatype Outcome<+T> = Done(value: T) | Failed(error: AgentError) | Panicked

  // ── Parsing ──────────────────────────────────────────────────────────────

  function Find(s: string, c: char, from: nat := 0): (r: Option<nat>)
    requires from <= |s|
    ensures r.Some? ==> from <= r.value < |s| && s[r.value] == c && forall i | from <= i < r.value :: s[i] != c
    ensures r.None? ==> forall i | from <= i < |s| :: s[i] != c
    decreases |s| - from
  {
    if from == |s| then None
    else if s[from] == c then Some(from)
    else Find(s, c, from + 1)
  }

  function FindLast(s: string, c: char): (r: Option<nat>)
    ensures r.Some? ==> r.value < |s| && s[r.value] == c && forall i | r.value < i < |s| :: s[i] != c
    ensures r.None? ==> c !in s
  {
    if s == "" then None
    else if s[|s| - 1] == c then Some(|s| - 1)
    else FindLast(s[..|s| - 1], c)
  }

  /** The inclusive slice from the first `[` to the last `]`, decoded. A range
      that starts more than one position behind its end is out of bounds. */
  function ParseSubtasks(decode: Decoder, content: string): Outcome<seq<Subtask>> {
    var start := Find(content, '[');
    if start.None? then Failed(ConfigurationError("supervisor LLM did not return a JSON array"))
    else
      var end := FindLast(content, ']');
      if end.None? then Failed(ConfigurationError("supervisor LLM response has unmatched '['"))
      else if start.value > end.value + 1 then Panicked
      else
        match decode(content[start.value..end.value + 1])
        case Ok(subtasks) => Done(subtasks)
        case Err(e) => Failed(ConfigurationError("failed to parse supervisor subtasks: " + e))
  }

  /** Text around an array is ignored: no `[` in front of it, no `]` behind it. */
  lemma SurroundingsIgnored(decode: Decoder, before: string, array': string, after: string)
    requires '[' !in before && ']' !in after
    requires array' != "" && array'[0] == '[' && array'[|array'| - 1] == ']'
    ensures ParseSubtasks(decode, before + array' + after) == ParseSubtasks(decode, array')
    ensures decode(array').Ok? ==> ParseSubtasks(decode, before + array' + after) == Done(decode(array').value)
  {
    hide Find, FindLast;
    BracketsFound(before, array', after);
    BracketsFound("", array', "");
    var content := before + array' + after;
    assert content[|before|..|before| + |array'|] == array' && array'[0..|array'|] == array';
    assert "" + array' + "" == array';
  }

  lemma FoundAt(s: string, c: char, n: nat)
    requires n < |s| && s[n] == c
    ensures (forall i | 0 <= i < n :: s[i] != c) ==> Find(s, c) == Some(n)
    ensures (forall i | n < i < |s| :: s[i] != c) ==> FindLast(s, c) == Some(n)
  {
    hide Find, FindLast;
  }

  lemma BracketsFound(before: string, array': string, after: string)
    requires '[' !in before && ']' !in after
    requires array' != "" && array'[0] == '[' && array'[|array'| - 1] == ']'
    ensures Find(before + array' + after, '[') == Some(|before|)
    ensures FindLast(before + array' + after, ']') == Some(|before| + |array'| - 1)
  {
    hide Find, FindLast;
    var content := before + array' + after;
    var n := |before|;
    assert forall i :: 0 <= i < n ==> content[i] == before[i];
    FoundAt(content, '[', n);
    assert forall i :: n + |array'| <= i < |content| ==> content[i] == after[i - n - |array'|];
    FoundAt(content, ']', n + |array'| - 1);
  }

  /** Position `i` holds the first `c` of the text. */
  predicate FirstAt(s: string, c: char, i: nat) {
    i < |s| && s[i] == c && forall k :: 0 <= k < i ==> s[k] != c
  }

  predicate LastAt(s: string, c: char, j: nat) {
    j < |s| && s[j] == c && forall k :: j < k < |s| ==> s[k] != c
  }

  /** How a text is parsed, by the positions of its brackets: from the first `[`
      to the last `]` it is decoded; a rejected slice and a missing bracket are
      configuration errors, and a slice that ends before it starts panics. */
  lemma ParsedExactly(decode: Decoder, content: string, i: nat, j: nat)
    ensures '[' !in content || ']' !in content ==>
              ParseSubtasks(decode, content).Failed? && ParseSubtasks(decode, content).error.ConfigurationError?
    ensures FirstAt(content, '[', i) && LastAt(content, ']', j) ==>
              if i > j + 1 then ParseSubtasks(decode, content) == Panicked
              else
                var decoded := decode(content[i..j + 1]);
                (forall ts :: ParseSubtasks(decode, content) == Done(ts) <==> decoded == Ok(ts)) &&
                (decoded.Err? ==>
                  ParseSubtasks(decode, content) ==
                  Failed(ConfigurationError("failed to parse supervisor subtasks: " + decoded.error)))
  {
    hide Find, FindLast;
    if FirstAt(content, '[', i) && LastAt(content, ']', j) {
      FoundAt(content, '[', i);
      FoundAt(content, ']', j);
    }
  }

  lemma ParsedByPosition(decode: Decoder, content: string)
    ensures '[' !in content || ']' !in content ==>
              ParseSubtasks(decode, content).Failed? && ParseSubtasks(decode, content).error.ConfigurationError?
    ensures forall i: nat, j: nat :: FirstAt(content, '[', i) && LastAt(content, ']', j) ==>
              ParseSubtasks(decode, content) ==
              if i > j + 1 then Panicked
              else
                match decode(content[i..j + 1])
                case Ok(subtasks) => Done(subtasks)
                case Err(e) => Failed(ConfigurationError("failed to parse supervisor subtasks: " + e))
  {
    hide ParseSubtasks;
    ParsedExactly(decode, content, 0, 0);
    forall i: nat, j: nat | FirstAt(content, '[', i) && LastAt(content, ']', j)
      ensures ParseSubtasks(decode, content) ==
              if i > j + 1 then Panicked
              else
                match decode(content[i..j + 1])
                case Ok(subtasks) => Done(subtasks)
                case Err(e) => Failed(ConfigurationError("failed to parse supervisor subtasks: " + e))
    {
      ParsedExactly(decode, content, i, j);
    }
  }

  /** The parser panics exactly when both brackets occur and every `[` lies more
      than one position behind every `]`. */
  lemma PanicsExactly(decode: Decoder, content: string)
    ensures ParseSubtasks(decode, content) == Panicked <==>
            '[' in content && ']' in content &&
            forall i, j :: 0 <= i < |content| && 0 <= j < |content| && content[i] == '[' && content[j] == ']' ==> i > j + 1
  {
    var start, end := Find(content, '['), FindLast(content, ']');
    if start.Some? && end.Some? {
      assert content[start.value] == '[' && content[end.value] == ']';
    }
  }

  /** The promise that every failure surfaces as an error does not hold: `] [` panics. */
  lemma BracketsOutOfOrderPanic(decode: Decoder)
    ensures ParseSubtasks(decode, "] [") == Panicked
  {
    PanicsExactly(decode, "] [");
    assert "] ["[2] == '[' && "] ["[0] == ']';
  }

  // ── Dispatch ─────────────────────────────────────────────────────────────

  /** What the k-th `send` of the supervisor returns. */
  type Sends = (nat, Subtask) -> Result<string, Bus.BusError>

  function Describe(e: Bus.BusError): string {
    match e
    case AgentNotFound(name) => "agent not found on bus: " + name
    case SendError => "failed to deliver task to agent"
    case RecvError => "agent did not send a reply"
  }

  /** What the operator reads when a send fails. */
  lemma Described(name: string)
    ensures Describe(Bus.AgentNotFound(name)) == "agent not found on bus: " + name
    ensures Describe(Bus.SendError) == "failed to deliver task to agent"
    ensures Describe(Bus.RecvError) == "agent did not send a reply"
  {
  }

  function Line(st: Subtask, reply: string): string {
    "[" + st.agent + "]: " + reply
  }

  function Join(lines: seq<string>): string {
    if lines == [] then ""
    else if |lines| == 1 then lines[0]
    else Join(lines[..|lines| - 1]) + "\n" + lines[|lines| - 1]
  }

  /** The lines of a text, split at its newlines. */
  function Split(s: string): seq<string> {
    if s == "" then [""]
    else
      var init, last := Split(s[..|s| - 1]), s[|s| - 1];
      if last == '\n' then init + [""]
      else if init == [] then [[last]]
      else init[..|init| - 1] + [init[|init| - 1] + [last]]
  }

  lemma {:induction false} SplitLine(s: string, line: string)
    requires '\n' !in line
    ensures Split(s + "\n" + line) == Split(s) + [line]
  {
    var text := s + "\n" + line;
    if line == "" {
      assert text[..|text| - 1] == s;
    } else {
      var shorter := line[..|line| - 1];
      SplitLine(s, shorter);
      assert text[..|text| - 1] == s + "\n" + shorter;
      assert shorter + [line[|line| - 1]] == line;
    }
  }

  lemma {:induction false} SplitSingle(line: string)
    requires '\n' !in line
    ensures Split(line) == [line]
  {
    if line != "" {
      SplitSingle(line[..|line| - 1]);
      assert line[..|line| - 1] + [line[|line| - 1]] == line;
    }
  }

  lemma {:induction false} SplitNeverBreaks(s: string, i: nat)
    ensures Split(s) != []
    ensures i < |Split(s)| ==> '\n' !in Split(s)[i]
  {
    if s != "" {
      SplitNeverBreaks(s[..|s| - 1], i);
      var init := Split(s[..|s| - 1]);
      SplitNeverBreaks(s[..|s| - 1], |init| - 1);
    }
  }

  lemma {:induction false} JoinSplits(lines: seq<string>)
    requires lines != [] && forall line :: line in lines ==> '\n' !in line
    ensures Split(Join(lines)) == lines
  {
    hide Split;
    var init, last := lines[..|lines| - 1], lines[|lines| - 1];
    assert last in lines;
    if init == [] {
      SplitSingle(last);
    } else {
      JoinSplits(init);
      SplitLine(Join(init), last);
    }
  }

  /** Joining puts one newline between any two parts and nothing anywhere else, whatever the lines hold. */
  lemma {:induction false} JoinConcat(a: seq<string>, b: seq<string>)
    ensures Join([]) == ""
    ensures a != [] && b != [] ==> Join(a + b) == Join(a) + "\n" + Join(b)
    ensures |a| == 1 ==> Join(a) == a[0]
  {
    if a != [] && b != [] {
      var init, last := b[..|b| - 1], b[|b| - 1];
      assert (a + b)[..|a + b| - 1] == a + init;
      if init == [] {
        assert a + init == a;
      } else {
        JoinConcat(a, init);
        assert Join(a) + "\n" + Join(init) + "\n" + last == Join(a) + "\n" + (Join(init) + "\n" + last);
      }
    }
  }

  /** A report of at least one line can be read back line by line exactly when no
      line contains a newline. */
  lemma JoinThenSplit(lines: seq<string>)
    requires lines != []
    ensures Split(Join(lines)) == lines <==> forall line :: line in lines ==> '\n' !in line
  {
    if Split(Join(lines)) == lines {
      forall line | line in lines
        ensures '\n' !in line
      {
        var i: nat :| i < |lines| && lines[i] == line;
        SplitNeverBreaks(Join(lines), i);
      }
    }
    if forall line :: line in lines ==> '\n' !in line {
      JoinSplits(lines);
    }
  }

  datatype Report = Report(content: string, stepsTaken: nat, totalTokens: TokenUsage, runId: Uuid)

  /** The position of the first send that fails. */
  predicate FailsFirst(send: Sends, subtasks: seq<Subtask>, k: nat) {
    k < |subtasks| && send(k, subtasks[k]).Err? && forall i :: 0 <= i < k ==> send(i, subtasks[i]).Ok?
  }

  predicate AllAnswered(send: Sends, subtasks: seq<Subtask>) {
    forall i :: 0 <= i < |subtasks| ==> send(i, subtasks[i]).Ok?
  }

  /** The output lines: each subtask with the reply to its own send. */
  function Lines(send: Sends, subtasks: seq<Subtask>): seq<string>
    requires AllAnswered(send, subtasks)
  {
    seq(|subtasks|, i requires 0 <= i < |subtasks| => Line(subtasks[i], send(i, subtasks[i]).value))
  }

  /** What an output line says. */
  lemma LineAt(send: Sends, subtasks: seq<Subtask>, k: nat)
    requires AllAnswered(send, subtasks) && k < |subtasks|
    ensures |Lines(send, subtasks)| == |subtasks|
    ensures Lines(send, subtasks)[k] == "[" + subtasks[k].agent + "]: " + send(k, subtasks[k]).value
  {
  }

  /** The report of a dispatch reads back line by line exactly when neither the
      agents' names nor their replies contain a newline. */
  lemma ReportReadsBack(send: Sends, subtasks: seq<Subtask>)
    requires AllAnswered(send, subtasks) && subtasks != []
    ensures Split(Join(Lines(send, subtasks))) == Lines(send, subtasks) <==>
            forall i :: 0 <= i < |subtasks| ==> '\n' !in subtasks[i].agent && '\n' !in send(i, subtasks[i]).value
  {
    var lines := Lines(send, subtasks);
    JoinThenSplit(lines);
    forall i | 0 <= i < |subtasks|
      ensures '\n' in lines[i] <==> '\n' in subtasks[i].agent || '\n' in send(i, subtasks[i]).value
    {
      NewlineInLine(subtasks[i], send(i, subtasks[i]).value);
    }
    assert forall line :: line in lines <==> exists i :: 0 <= i < |lines| && lines[i] == line;
  }

  lemma NewlineInLine(st: Subtask, reply: string)
    ensures '\n' in Line(st, reply) <==> '\n' in st.agent || '\n' in reply
  {
  }

  /** The dispatch: in order, one send for each subtask, and none after the first failure. */
  method Dispatch(send: Sends, subtasks: seq<Subtask>) returns (r: Outcome<seq<string>>, sent: seq<Subtask>)
    ensures r.Done? <==> AllAnswered(send, subtasks)
    ensures r.Done? ==> sent == subtasks && r.value == Lines(send, subtasks)
    ensures r.Done? ==> |r.value| == |subtasks| && forall k :: 0 <= k < |subtasks| ==>
              r.value[k] == "[" + subtasks[k].agent + "]: " + send(k, subtasks[k]).value
    ensures !r.Done? ==>
              exists k: nat :: FailsFirst(send, subtasks, k) && sent == subtasks[..k + 1] &&
                r == Failed(ProviderError(Describe(send(k, subtasks[k]).error)))
  {
    var results: seq<string> := [];
    sent := [];
    for k := 0 to |subtasks|
      invariant sent == subtasks[..k]
      invariant AllAnswered(send, subtasks[..k])
      invariant results == Lines(send, subtasks[..k])
    {
      var st := subtasks[k];
      assert forall i :: 0 <= i < k ==> subtasks[..k][i] == subtasks[i];
      sent := sent + [st];
      var reply := send(k, st);
      if reply.Err? {
        assert FailsFirst(send, subtasks, k);
        return Failed(ProviderError(Describe(reply.error))), sent;
      }
      results := results + [Line(st, reply.value)];
    }
    assert subtasks[..|subtasks|] == subtasks;
    return Done(results), sent;
  }

  /** One supervisor run; `plan` is the provider's answer to the decomposition request. */
  method Run(plan: Result<CompletionResponse, string>, decode: Decoder, send: Sends, runId: Uuid)
    returns (r: Outcome<Report>, sent: seq<Subtask>)
    ensures plan.Err? ==> r == Failed(ProviderError(plan.error)) && sent == []
    ensures plan.Ok? && plan.value.content.None? ==> r.Failed? && r.error.ConfigurationError? && sent == []
    ensures plan.Ok? && plan.value.content.Some? ==>
              var parsed := ParseSubtasks(decode, plan.value.content.value);
              match parsed
              case Panicked => r == Panicked && sent == []
              case Failed(e) => r == Failed(e) && sent == []
              case Done(subtasks) =>
                if AllAnswered(send, subtasks) then
                  sent == subtasks &&
                  r == Done(Report(Join(Lines(send, subtasks)), |subtasks|, plan.value.usage, runId))
                else
                  exists k: nat :: FailsFirst(send, subtasks, k) && sent == subtasks[..k + 1] &&
                    r == Failed(ProviderError(Describe(send(k, subtasks[k]).error)))
    ensures plan.Ok? && plan.value.content.Some? && ('[' !in plan.value.content.value || ']' !in plan.value.content.value) ==>
              r.Failed? && r.error.ConfigurationError? && sent == []
    ensures plan.Ok? && plan.value.content.Some? ==>
              var text := plan.value.content.value;
              forall i: nat, j: nat :: FirstAt(text, '[', i) && LastAt(text, ']', j) ==>
                if i > j + 1 then r == Panicked && sent == []
                else if decode(text[i..j + 1]).Err? then
                  r == Failed(ConfigurationError("failed to parse supervisor subtasks: " + decode(text[i..j + 1]).error)) && sent == []
                else
                  var subtasks := decode(text[i..j + 1]).value;
                  AllAnswered(send, subtasks) ==>
                    sent == subtasks && r == Done(Report(Join(Lines(send, subtasks)), |subtasks|, plan.value.usage, runId))
  {
    sent := [];
    ParsedByPosition(decode, if plan.Ok? && plan.value.content.Some? then plan.value.content.value else "");
    if plan.Err? {
      return Failed(ProviderError(plan.error)), sent;
    }
    var response := plan.value;
    if response.content.None? {
      return Failed(ConfigurationError("supervisor LLM returned no text content")), sent;
    }
    var parsed := ParseSubtasks(decode, response.content.value);
    match parsed {
      case Panicked => return Panicked, sent;
      case Failed(e) => return Failed(e), sent;
      case Done(subtasks) =>
        var results;
        results, sent := Dispatch(send, subtasks);
        match results {
          case Failed(e) => return Failed(e), sent;
          case Done(lines) => return Done(Report(Join(lines), |subtasks|, response.usage, runId)), sent;
        }
    }
  }

  /** The supervisor's sends on the bus: the k-th looks up the k-th subtask's
      agent, as message ids[k], after starts[k] events, and has returned after
      ends[k]; only then the next one starts. Anything else happens in between. */
  predicate Dispatched(events: seq<Bus.Event>, send: Sends, subtasks: seq<Subtask>,
                       ids: seq<Bus.MsgId>, starts: seq<nat>, ends: seq<nat>)
  {
    |ids| == |starts| == |ends| == |subtasks| &&
    (forall k :: 0 <= k < |ids| ==> DispatchedAt(events, send, subtasks[k], k, ids[k], starts[k], ends[k])) &&
    (forall j, k :: 0 <= j < k < |ids| ==> ends[j] <= starts[k])
  }

  predicate DispatchedAt(events: seq<Bus.Event>, send: Sends, st: Subtask, k: nat, m: Bus.MsgId, start: nat, end: nat) {
    start < end <= |events| &&
    events[start] == Bus.Lookup(m, st.agent) && m !in Bus.Run(events[..start]).sends &&
    Bus.Is(Bus.Run(events[..end]), m, Bus.Returned(send(k, st)))
  }

  lemma SlicesJoin(events: seq<Bus.Event>, start: nat, end: nat)
    requires start < end <= |events|
    ensures events[..start + 1][..start] == events[..start]
    ensures events[..end] + events[end..] == events
    ensures events[..start + 1] + events[start + 1..end] == events[..end]
    ensures events[..start + 1] + events[start + 1..] == events
  {
  }

  /** The supervisor's own view of one send, from the event log. */
  lemma SendAnswered(events: seq<Bus.Event>, send: Sends, st: Subtask, k: nat, m: Bus.MsgId, start: nat, end: nat)
    requires DispatchedAt(events, send, st, k, m, start, end) && send(k, st).Ok?
    ensures var agents := Bus.Run(events[..start]).agents;
            st.agent in agents && BusRuns.Route(events, m) == Some(agents[st.agent]) &&
            m in BusRuns.Received(events[..end], agents[st.agent])
    ensures BusRuns.RepliesTo(events, m) == [send(k, st).value]
  {
    hide Bus.Step, BusRuns.Received, BusRuns.RepliesTo, BusRuns.Consistent;
    var until, looked := events[..end], events[..start + 1];
    var result: Bus.Place := Bus.Returned(send(k, st));
    SlicesJoin(events, start, end);
    BusRuns.Follow(looked, m);
    BusRuns.RouteIsFixed(looked, events[start + 1..end], m);
    BusRuns.RouteIsFixed(looked, events[start + 1..], m);
    BusRuns.ReturnedStays(until, events[end..], m);
    BusRuns.AnsweredExactly(until, m);
    BusRuns.AnsweredExactly(events, m);
    BusRuns.AnsweredWasReceived(until, m);
    BusRuns.PlacesOnRoute(looked, m);
  }

  /** Over the bus, whatever else happens on it: every output line carries the one
      reply given to the supervisor's own message for that subtask, by the worker
      whose mailbox was registered under the subtask's agent when the send
      looked it up. No two sends are the same message. */
  lemma LinesCarryOwnReplies(events: seq<Bus.Event>, send: Sends, subtasks: seq<Subtask>,
                             ids: seq<Bus.MsgId>, starts: seq<nat>, ends: seq<nat>, k: nat)
    requires Dispatched(events, send, subtasks, ids, starts, ends) && AllAnswered(send, subtasks) && k < |subtasks|
    ensures var agents := Bus.Run(events[..starts[k]]).agents;
            subtasks[k].agent in agents &&
            ids[k] in BusRuns.Received(events[..ends[k]], agents[subtasks[k].agent])
    ensures exists reply ::
              BusRuns.RepliesTo(events, ids[k]) == [reply] &&
              Lines(send, subtasks)[k] == "[" + subtasks[k].agent + "]: " + reply
    ensures forall j :: 0 <= j < k ==> ids[j] != ids[k]
  {
    hide Bus.Run, Bus.Step, BusRuns.RepliesTo, BusRuns.Received, BusRuns.Route;
    SendAnswered(events, send, subtasks[k], k, ids[k], starts[k], ends[k]);
    forall j | 0 <= j < k
      ensures ids[j] != ids[k]
    {
      assert events[..ends[j]] + events[ends[j]..starts[k]] == events[..starts[k]];
      BusRuns.RouteIsFixed(events[..ends[j]], events[ends[j]..starts[k]], ids[j]);
    }
  }
}
