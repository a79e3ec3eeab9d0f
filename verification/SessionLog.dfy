/** What the thread shows, described from the messages and events alone. */
module SessionLog {
  import opened Session

  /** The last streaming item is updated and no other; without one nothing changes. */
  ghost predicate UpdatesLast(thread: seq<Item>, update: Item -> Item, after: seq<Item>) {
    && |after| == |thread|
    && forall i :: 0 <= i < |thread| ==>
         if thread[i].streaming && forall k :: i < k < |thread| ==> !thread[k].streaming
         then after[i] == update(thread[i])
         else after[i] == thread[i]
  }

  // ---------------------------------------------------------------------------------------
  // One event
  // ---------------------------------------------------------------------------------------

  /** A started step is appended and runs; a finished one has its payload replaced and stops running. */
  predicate StepsHear(steps: seq<AgentStep>, event: RunEvent, after: seq<AgentStep>) {
    match event
    case StepStart(no, payload) =>
      && |after| == |steps| + 1
      && (forall k :: 0 <= k < |steps| ==> after[k] == steps[k])
      && after[|steps|].no == no && after[|steps|].payload == payload && after[|steps|].running
    case StepDone(no, payload) =>
      && |after| == |steps|
      && forall k :: 0 <= k < |steps| ==>
           if steps[k].running && steps[k].no == no
           then after[k].no == no && after[k].payload == payload && !after[k].running
           else after[k] == steps[k]
    case _ => after == steps
  }

  /** The final message replaces what a question's placeholder says, and is appended to an upload's. */
  predicate ContentHears(content: string, event: RunEvent, upload: bool, after: string) {
    match event
    case Final(message) =>
      if upload then after == content + "\n\n" + message
      else if message != "" then after == message
      else after == DONE
    case _ => after == content
  }

  /** What an event of a run makes of its placeholder, which streams on. */
  predicate ItemHears(item: Item, event: RunEvent, upload: bool, after: Item) {
    && after.role == item.role && after.streaming == item.streaming
    && StepsHear(item.steps, event, after.steps)
    && ContentHears(item.content, event, upload, after.content)
  }

  lemma ApplyHears(steps: seq<AgentStep>, content: string, event: RunEvent, upload: bool)
    ensures StepsHear(steps, event, ApplyEvent(steps, event))
    ensures ContentHears(content, event, upload, ApplyContent(content, event, upload))
  {
  }

  /** One event determines the item. */
  lemma HearingIsUnique(item: Item, event: RunEvent, upload: bool, a: Item, b: Item)
    requires ItemHears(item, event, upload, a) && ItemHears(item, event, upload, b)
    ensures a == b
  {
    assert |a.steps| == |b.steps|;
    forall k | 0 <= k < |a.steps| ensures a.steps[k] == b.steps[k] {
      if k < |item.steps| { assert a.steps[k] == item.steps[k] || !a.steps[k].running; }
    }
  }

  // ---------------------------------------------------------------------------------------
  // A whole log
  // ---------------------------------------------------------------------------------------

  /** The places of the started steps, in order. */
  function StartsOf(log: seq<RunEvent>): (starts: seq<nat>)
    ensures forall k :: 0 <= k < |starts| ==> starts[k] < |log| && log[starts[k]].StepStart?
    ensures forall j, k :: 0 <= j < k < |starts| ==> starts[j] < starts[k]
    ensures forall i :: 0 <= i < |log| && log[i].StepStart? ==> i in starts
  {
    if log == [] then []
    else
      var n := |log| - 1;
      StartsOf(log[..n]) + if log[n].StepStart? then [n] else []
  }

  /** Event `j` finishes a step with the number of the one that event `i` started. */
  predicate Finishes(log: seq<RunEvent>, i: nat, j: nat)
    requires i < |log| && log[i].StepStart?
  {
    i < j < |log| && log[j].StepDone? && log[j].no == log[i].no
  }

  /** The step that event `i` started is as the first event that finishes it left it, or still runs. */
  ghost predicate ShownAs(log: seq<RunEvent>, i: nat, step: AgentStep)
    requires i < |log| && log[i].StepStart?
  {
    && step.no == log[i].no
    && if step.running then step.payload == log[i].payload && forall j: nat :: !Finishes(log, i, j)
       else exists j: nat :: Finishes(log, i, j) && step.payload == log[j].payload
              && forall h: nat :: Finishes(log, i, h) ==> j <= h
  }

  /** One step for each that was started, in order, each as the log left it. */
  ghost predicate ShowsSteps(steps: seq<AgentStep>, log: seq<RunEvent>) {
    && |steps| == |StartsOf(log)|
    && forall k :: 0 <= k < |steps| ==> ShownAs(log, StartsOf(log)[k], steps[k])
  }

  lemma FinishesOfLonger(log: seq<RunEvent>, event: RunEvent, i: nat, j: nat)
    requires i < |log| && log[i].StepStart?
    ensures Finishes(log + [event], i, j)
            <==> Finishes(log, i, j) || (j == |log| && event.StepDone? && event.no == log[i].no)
  {
  }

  lemma StepHears(log: seq<RunEvent>, event: RunEvent, i: nat, step: AgentStep, after: AgentStep)
    requires i < |log| && log[i].StepStart? && ShownAs(log, i, step)
    requires if event.StepDone? && event.no == step.no && step.running
             then after == AgentStep(step.no, event.payload, false) else after == step
    ensures ShownAs(log + [event], i, after)
  {
    forall j: nat ensures Finishes(log + [event], i, j)
            <==> Finishes(log, i, j) || (j == |log| && event.StepDone? && event.no == log[i].no) {
      FinishesOfLonger(log, event, i, j);
    }
    if !step.running {
      var j: nat :| Finishes(log, i, j) && step.payload == log[j].payload
                    && forall h: nat :: Finishes(log, i, h) ==> j <= h;
      assert Finishes(log + [event], i, j) && (log + [event])[j] == log[j];
    } else if event.StepDone? && event.no == step.no {
      assert Finishes(log + [event], i, |log|);
    }
  }

  /** The fold shows what the log says. */
  lemma {:induction false} FoldShowsSteps(log: seq<RunEvent>)
    ensures ShowsSteps(FoldSteps(log), log)
  {
    if log != [] {
      var n := |log| - 1;
      var before, event := log[..n], log[n];
      assert log == before + [event];
      FoldShowsSteps(before);
      ApplyHears(FoldSteps(before), "", event, false);
      hide ApplyEvent, ShownAs;
      forall k | 0 <= k < |StartsOf(before)| ensures ShownAs(log, StartsOf(log)[k], FoldSteps(log)[k]) {
        StepHears(before, event, StartsOf(before)[k], FoldSteps(before)[k], FoldSteps(log)[k]);
      }
      if event.StepStart? { StartedIsShown(log, FoldSteps(log)[|FoldSteps(before)|]); }
    }
  }

  lemma StartedIsShown(log: seq<RunEvent>, step: AgentStep)
    requires log != [] && log[|log| - 1].StepStart?
    requires step == AgentStep(log[|log| - 1].no, log[|log| - 1].payload, true)
    ensures ShownAs(log, |log| - 1, step)
  {
  }

  /** And the log says it completely. */
  lemma ShownIsUnique(log: seq<RunEvent>, a: seq<AgentStep>, b: seq<AgentStep>)
    requires ShowsSteps(a, log) && ShowsSteps(b, log)
    ensures a == b
  {
  }

  /** The final messages, in order. */
  function FinalsOf(log: seq<RunEvent>): (finals: seq<string>) {
    if log == [] then []
    else
      var n := |log| - 1;
      FinalsOf(log[..n]) + if log[n].Final? then [log[n].message] else []
  }

  /** A question's placeholder says the last final message; an upload's says first what was recognised and then each
      final message in a paragraph of its own. */
  predicate ShowsContent(content: string, log: seq<RunEvent>, upload: bool, first: string) {
    var finals := FinalsOf(log);
    if upload then content == first + Paragraphs(finals)
    else if finals == [] then content == first
    else content == if finals[|finals| - 1] == "" then DONE else finals[|finals| - 1]
  }

  function Paragraphs(texts: seq<string>): string {
    if texts == [] then "" else "\n\n" + texts[0] + Paragraphs(texts[1..])
  }

  lemma {:induction false} ParagraphsAppend(texts: seq<string>, text: string)
    ensures Paragraphs(texts + [text]) == Paragraphs(texts) + "\n\n" + text
  {
    if texts == [] {
      assert Paragraphs([text]) == "\n\n" + text + "";
    } else {
      assert (texts + [text])[1..] == texts[1..] + [text];
      ParagraphsAppend(texts[1..], text);
    }
  }

  lemma {:induction false} FoldShowsContent(log: seq<RunEvent>, upload: bool, first: string)
    ensures ShowsContent(FoldContent(log, upload, first), log, upload, first)
  {
    if log == [] {
      assert first + "" == first;
    } else {
      var n := |log| - 1;
      var finals, said := FinalsOf(log[..n]), FoldContent(log[..n], upload, first);
      FoldShowsContent(log[..n], upload, first);
      if log[n].Final? {
        var message := log[n].message;
        ParagraphsAppend(finals, message);
        assert FinalsOf(log) == finals + [message];
        assert first + (Paragraphs(finals) + "\n\n" + message) == first + Paragraphs(finals) + "\n\n" + message;
        if upload {
          assert FoldContent(log, upload, first) == said + "\n\n" + message;
        }
      } else {
        assert FinalsOf(log) == finals;
      }
    }
  }

  /** The placeholder of a run shows its own events. */
  ghost predicate ShowsRun(item: Item, log: seq<RunEvent>, upload: bool, first: string) {
    && item.role.Assistant? && item.streaming
    && ShowsSteps(item.steps, log) && ShowsContent(item.content, log, upload, first)
  }

  // ---------------------------------------------------------------------------------------
  // History
  // ---------------------------------------------------------------------------------------

  /** The thread shows the messages in their order, an assistant's with its steps, then the card if there are actions;
      and the welcome if there is nothing to show. */
  predicate ShowsHistory(thread: seq<Item>, messages: seq<Message>, hasActions: bool) {
    && |thread| == (if messages == [] && !hasActions then 1 else |messages| + if hasActions then 1 else 0)
    && (forall k :: 0 <= k < |messages| ==>
          && thread[k].role == messages[k].role && thread[k].content == messages[k].content && !thread[k].streaming
          && thread[k].steps == if messages[k].role.Assistant? then messages[k].steps else [])
    && (hasActions ==> thread[|messages|] == RESTORED_CARD)
    && (messages == [] && !hasActions ==> thread[0] == WELCOME)
  }

  lemma RestoredShowsHistory(messages: seq<Message>, hasActions: bool)
    ensures ShowsHistory(Restored(messages, hasActions), messages, hasActions)
  {
  }
}
