/** The translation of one text node or attribute in place, with its cached original, under language switches and the
    mutation observer. */
module I18nCache {
  import I18nTables
  import opened Options
  import opened Text

  datatype Kind = TextNode | Attribute

  /** What is shown, and the cached original and translation. An absent attribute has no value. */
  datatype Cell = Cell(value: Option<string>, original: Option<string>, written: Option<string>)

  /** The page around it: the last value the program itself wrote, the language variable, whether the observer runs, the
      records queued for it, whether it dropped any since it was started, and how often each kind of write happened. */
  datatype State = State(
    cell: Cell, source: Option<string>, simplified: bool, observing: bool, records: nat, dropped: bool,
    sources: nat, converts: nat, restores: nat)

  datatype Action =
    | SourceWrite(value: Option<string>)
    | SaveLanguage(simplified: bool)
    | TranslateTree(simplified: bool)
    | Callback

  const FRESH_CELL := Cell(None, None, None)

  /** Values that are left alone: blank text, and absent or empty attributes. */
  predicate Skips(kind: Kind, value: Option<string>) {
    value.None? || match kind case TextNode => Blank(value.value) case Attribute => value.value == ""
  }

  // ---------------------------------------------------------------------------------------
  // One cell
  // ---------------------------------------------------------------------------------------

  predicate Converts(kind: Kind, tr: string -> string, cell: Cell) {
    !Skips(kind, cell.value) && cell.value != cell.written && tr(cell.value.value) != cell.value.value
  }

  function Convert(kind: Kind, tr: string -> string, cell: Cell): Cell {
    if Converts(kind, tr, cell) then Cell(Some(tr(cell.value.value)), cell.value, Some(tr(cell.value.value))) else cell
  }

  /** The tree walk passes blank text by, so it is not restored either. */
  predicate Restores(kind: Kind, cell: Cell) {
    && !(kind.TextNode? && Skips(kind, cell.value))
    && cell.original.Some? && cell.value == cell.written
  }

  function Restore(kind: Kind, cell: Cell): Cell {
    if Restores(kind, cell) then cell.(value := cell.original) else cell
  }

  // ---------------------------------------------------------------------------------------
  // Steps and runs
  // ---------------------------------------------------------------------------------------

  function Start(source: Option<string>): State {
    State(FRESH_CELL.(value := source), source, false, false, 0, false, 0, 0, 0)
  }

  /** A conversion by the observer queues a record of its own. */
  function ConvertStep(kind: Kind, tr: string -> string, s: State): State {
    if Converts(kind, tr, s.cell) then
      s.(cell := Convert(kind, tr, s.cell), converts := s.converts + 1,
          records := if s.observing then s.records + 1 else s.records)
    else s
  }

  function Step(kind: Kind, tr: string -> string, s: State, a: Action): State {
    match a
    case SourceWrite(v) =>
      s.(cell := s.cell.(value := v), source := v, records := if s.observing then s.records + 1 else s.records,
          sources := s.sources + 1)
    case SaveLanguage(simplified) => s.(simplified := simplified)
    case TranslateTree(true) => ConvertStep(kind, tr, s).(simplified := true, observing := true, records := 0,
        dropped := false)
    case TranslateTree(false) =>
      s.(cell := Restore(kind, s.cell), restores := s.restores + if Restores(kind, s.cell) then 1 else 0,
         simplified := false, observing := false, records := 0, dropped := false)
    case Callback =>
      if !s.observing || s.records == 0 then s
      else if !s.simplified then s.(records := 0, dropped := true)
      else ConvertStep(kind, tr, s.(records := 0))
  }

  function Run(kind: Kind, tr: string -> string, s: State, actions: seq<Action>): State {
    if actions == [] then s else Step(kind, tr, Run(kind, tr, s, actions[..|actions| - 1]), actions[|actions| - 1])
  }

  // ---------------------------------------------------------------------------------------
  // What is shown
  // ---------------------------------------------------------------------------------------

  /** The pure translation of a source value. */
  function Translated(kind: Kind, tr: string -> string, source: Option<string>): Option<string> {
    match (kind, source)
    case (_, None) => None
    case (TextNode, Some(text)) => if Blank(text) then Some(text) else Some(tr(text))
    case (Attribute, Some(text)) => if text == "" then Some(text) else Some(tr(text))
  }

  /** A source write that happens to equal what the cache says was written. */
  predicate Hits(s: State, a: Action) {
    a.SourceWrite? && a.value.Some? && a.value == s.cell.written
  }

  predicate HitFree(kind: Kind, tr: string -> string, s: State, actions: seq<Action>) {
    forall k :: 0 <= k < |actions| ==> !Hits(Run(kind, tr, s, actions[..k]), actions[k])
  }

  /** Translation makes no visible text blank. */
  ghost predicate KeepsInk(tr: string -> string) {
    forall s :: !Blank(s) ==> !Blank(tr(s))
  }

  /** The cache is empty, or holds a value that is not left alone and its different translation. */
  predicate CacheAgrees(kind: Kind, tr: string -> string, cell: Cell) {
    if cell.original.None? then cell.written.None?
    else !Skips(kind, cell.original) && cell.written == Some(tr(cell.original.value)) != cell.original
  }

  function Translator(tables: I18nTables.Tables): string -> string
    requires I18nTables.WellFormed(tables)
  {
    (text: string) => I18nTables.Simplified(tables, text)
  }

  /** The hypothesis can be read off the tables. */
  lemma TablesKeepInk(tables: I18nTables.Tables)
    requires I18nTables.KeepsInk(tables)
    ensures KeepsInk(Translator(tables))
  {
    forall s | !Blank(s) ensures !Blank(Translator(tables)(s)) {
      I18nTables.VisibleStaysVisible(tables, s);
    }
  }

  /** The cell shows the source itself and the cache does not claim it, or its translation with
      the cache holding both. */
  predicate Sound(kind: Kind, tr: string -> string, s: State) {
    && CacheAgrees(kind, tr, s.cell)
    && if s.cell.value.Some? && s.cell.value == s.cell.written then s.cell.original == s.source
       else s.cell.value == s.source
  }

  predicate Inv(kind: Kind, tr: string -> string, s: State) {
    && Sound(kind, tr, s)
    && (!s.observing ==> s.cell.value == s.source && s.records == 0)
    && (s.observing && !s.dropped && Converts(kind, tr, s.cell) ==> s.records > 0)
  }

  lemma StepKeepsInv(kind: Kind, tr: string -> string, s: State, a: Action)
    requires KeepsInk(tr) && Inv(kind, tr, s) && !Hits(s, a)
    ensures Inv(kind, tr, Step(kind, tr, s, a))
  {
  }

  lemma {:induction false} RunKeepsInv(kind: Kind, tr: string -> string, source: Option<string>, actions: seq<Action>)
    requires KeepsInk(tr) && HitFree(kind, tr, Start(source), actions)
    ensures Inv(kind, tr, Run(kind, tr, Start(source), actions))
  {
    if actions != [] {
      var n := |actions| - 1;
      assert forall k :: 0 <= k < n ==> actions[..n][..k] == actions[..k];
      RunKeepsInv(kind, tr, source, actions[..n]);
      StepKeepsInv(kind, tr, Run(kind, tr, Start(source), actions[..n]), actions[n]);
    }
  }

  /** Observed simplified text, once the observer has nothing left to do. */
  predicate Settled(s: State) {
    s.observing && s.simplified && s.records == 0 && !s.dropped
  }

  /**
   * After any run in which no source write hits the cache: while the observer is off the last
   * source is shown exactly, and once simplified text has settled its pure translation is.
   */
  lemma ShowsTranslationOfSource(kind: Kind, tr: string -> string, source: Option<string>, actions: seq<Action>)
    requires KeepsInk(tr) && HitFree(kind, tr, Start(source), actions)
    ensures var s := Run(kind, tr, Start(source), actions);
            && (!s.observing ==> s.cell.value == s.source)
            && (Settled(s) ==> s.cell.value == Translated(kind, tr, s.source))
  {
    RunKeepsInv(kind, tr, source, actions);
  }

  /**
   * One write in any reachable state: switching back to traditional text shows exactly what was
   * written if and only if it is not the translation held by the cache.
   */
  lemma WriteComesBackIff(kind: Kind, tr: string -> string, s: State, v: Option<string>)
    requires KeepsInk(tr) && Inv(kind, tr, s)
    ensures Step(kind, tr, Step(kind, tr, s, SourceWrite(v)), TranslateTree(false)).cell.value == v
            <==> !Hits(s, SourceWrite(v))
  {
  }

  // ---------------------------------------------------------------------------------------
  // The observer cannot loop
  // ---------------------------------------------------------------------------------------

  /** Whether a conversion may still write: the cache does not claim what is shown. */
  function Unclaimed(s: State): nat {
    if s.cell.value == s.cell.written then 0 else 1
  }

  lemma StepBoundsConverts(kind: Kind, tr: string -> string, s: State, a: Action)
    ensures var t := Step(kind, tr, s, a);
            t.converts + Unclaimed(t) + s.sources + s.restores <= s.converts + Unclaimed(s) + t.sources + t.restores
  {
  }

  /** For every translation function and every run: conversions are bounded by the writes of others and the
      restorations. */
  lemma {:induction false} ConvertsAreBounded(kind: Kind, tr: string -> string, s: State, actions: seq<Action>)
    ensures var t := Run(kind, tr, s, actions);
            t.converts + Unclaimed(t) + s.sources + s.restores <= s.converts + Unclaimed(s) + t.sources + t.restores
  {
    if actions != [] {
      var n := |actions| - 1;
      ConvertsAreBounded(kind, tr, s, actions[..n]);
      StepBoundsConverts(kind, tr, Run(kind, tr, s, actions[..n]), actions[n]);
    }
  }

  /** Without a write or switch from outside. */
  predicate Internal(actions: seq<Action>) {
    forall k :: 0 <= k < |actions| ==> actions[k].Callback? || actions[k].SaveLanguage?
  }

  lemma {:induction false} InternalLeavesSource(kind: Kind, tr: string -> string, s: State, actions: seq<Action>)
    requires Internal(actions)
    ensures var t := Run(kind, tr, s, actions);
            t.sources == s.sources && t.restores == s.restores && t.source == s.source
  {
    if actions != [] {
      InternalLeavesSource(kind, tr, s, actions[..|actions| - 1]);
    }
  }

  /** One write from outside is answered by at most one write of the observer, however often it runs and whatever the
      tables do. */
  lemma OneWriteAtMostOneConversion(kind: Kind, tr: string -> string, s: State, v: Option<string>, actions: seq<Action>)
    requires Internal(actions)
    ensures var t := Run(kind, tr, Step(kind, tr, s, SourceWrite(v)), actions);
            t.converts <= s.converts + 1 && t.source == v
  {
    var written := Step(kind, tr, s, SourceWrite(v));
    InternalLeavesSource(kind, tr, written, actions);
    ConvertsAreBounded(kind, tr, written, actions);
  }

  /** Two deliveries of records settle simplified text. */
  lemma TwoCallbacksSettle(kind: Kind, tr: string -> string, s: State)
    requires s.observing && s.simplified && !s.dropped
    ensures var once := Step(kind, tr, s, Callback);
            var twice := Step(kind, tr, once, Callback);
            Settled(twice) && twice.cell == once.cell
  {
  }

  // ---------------------------------------------------------------------------------------
  // The node and the observer
  // ---------------------------------------------------------------------------------------

  lemma ConvertSettles(kind: Kind, tr: string -> string, s: State)
    requires CacheAgrees(kind, tr, s.cell)
    ensures CacheAgrees(kind, tr, ConvertStep(kind, tr, s).cell) && !Converts(kind, tr, ConvertStep(kind, tr, s).cell)
    ensures ConvertStep(kind, tr, s).converts <= s.converts + 1
    ensures KeepsInk(tr) && Sound(kind, tr, s) ==>
              && Sound(kind, tr, ConvertStep(kind, tr, s))
              && ConvertStep(kind, tr, s).cell.value == Translated(kind, tr, s.source)
  {
  }

  /** Writing the original back, without the tree walk's filter. */
  function RestoreStep(s: State): State {
    if s.cell.original.Some? && s.cell.value == s.cell.written
    then s.(cell := s.cell.(value := s.cell.original), restores := s.restores + 1) else s
  }

  lemma RestoreBringsBack(kind: Kind, tr: string -> string, s: State)
    requires CacheAgrees(kind, tr, s.cell)
    ensures CacheAgrees(kind, tr, RestoreStep(s).cell) && RestoreStep(s).restores <= s.restores + 1
    ensures Sound(kind, tr, s) ==> Sound(kind, tr, RestoreStep(s)) && RestoreStep(s).cell.value == s.source
  {
  }

  lemma SwitchShows(kind: Kind, tr: string -> string, s: State, simplified: bool)
    requires KeepsInk(tr) && Sound(kind, tr, s)
    ensures var t := Step(kind, tr, s, TranslateTree(simplified));
            Sound(kind, tr, t) && t.cell.value == if simplified then Translated(kind, tr, s.source) else s.source
  {
  }

  /** One node or attribute. `Valid` is kept by everything; `Tracks` also by every source write that does not equal the
      cached translation, and says that the cell shows the last source or its translation. */
  class Observed {
    const kind: Kind
    const tr: string -> string
    var value: Option<string>
    var original: Option<string>
    var written: Option<string>
    var simplified: bool
    var observing: bool
    var records: nat
    ghost var source: Option<string>
    ghost var dropped: bool
    ghost var sources: nat
    ghost var converts: nat
    ghost var restores: nat

    ghost function Now(): State
      reads this
    {
      State(Cell(value, original, written), source, simplified, observing, records, dropped, sources, converts,
          restores)
    }

    /** The cache is empty or holds a value and its different translation. */
    ghost predicate Valid()
      reads this
    {
      CacheAgrees(kind, tr, Now().cell)
    }

    /** The cell shows its source, or the translation with the cache holding both. */
    ghost predicate Tracks()
      reads this
    {
      KeepsInk(tr) && Inv(kind, tr, Now())
    }

    constructor (kind: Kind, tr: string -> string, source: Option<string>)
      ensures Now() == Start(source) && this.kind == kind && this.tr == tr
      ensures Valid() && (KeepsInk(tr) ==> Tracks())
    {
      this.kind, this.tr := kind, tr;
      value, original, written := source, None, None;
      simplified, observing, records := false, false, 0;
      this.source, dropped, sources, converts, restores := source, false, 0, 0, 0;
    }

    /** The program writes its own value: the cell goes on tracking unless the value equals the cached translation. */
    method SourceWrite(v: Option<string>)
      requires Valid()
      modifies this
      ensures Valid() && source == v && (old(Tracks()) && (v.None? || v != old(written)) ==> Tracks())
      ensures Now() == Step(kind, tr, old(Now()), Action.SourceWrite(v))
    {
      hide Inv, KeepsInk;
      if Tracks() && !Hits(Now(), Action.SourceWrite(v)) { StepKeepsInv(kind, tr, Now(), Action.SourceWrite(v)); }
      value := v;
      if observing { records := records + 1; }
      source, sources := v, sources + 1;
    }

    /** Afterwards no further conversion would write, at most one write was made, and a sound cell shows the translation
        of its source. */
    method Convert()
      requires Valid()
      modifies this
      ensures Valid() && !Converts(kind, tr, Now().cell) && converts <= old(converts) + 1
      ensures KeepsInk(tr) && old(Sound(kind, tr, Now())) ==>
                Sound(kind, tr, Now()) && value == Translated(kind, tr, source)
      ensures Now() == ConvertStep(kind, tr, old(Now()))
    {
      hide CacheAgrees, KeepsInk, Sound, Translated;
      ConvertSettles(kind, tr, Now());
      if Skips(kind, value) { return; }
      var v := value.value;
      if value == written { return; }
      var simp := tr(v);
      if simp != v {
        original, written := Some(v), Some(simp);
        value := Some(simp);
        if observing { records := records + 1; }
        converts := converts + 1;
      }
    }

    /** A sound cell shows its source again, after at most one write. */
    method Restore()
      requires Valid()
      modifies this
      ensures Valid() && restores <= old(restores) + 1
      ensures old(Sound(kind, tr, Now())) ==> Sound(kind, tr, Now()) && value == source
      ensures Now() == RestoreStep(old(Now()))
    {
      hide CacheAgrees, Sound;
      RestoreBringsBack(kind, tr, Now());
      if original.Some? && value == written {
        value := original;
        restores := restores + 1;
      }
    }

    method SaveLanguage(simplified: bool)
      requires Valid()
      modifies this`simplified
      ensures Valid() && (old(Tracks()) ==> Tracks())
      ensures Now() == Step(kind, tr, old(Now()), Action.SaveLanguage(simplified))
    {
      hide Inv, KeepsInk;
      if Tracks() { StepKeepsInv(kind, tr, Now(), Action.SaveLanguage(simplified)); }
      this.simplified := simplified;
    }

    /** After a switch a tracking cell shows the translation of its source, or the source itself. */
    method TranslateTree(simplified: bool)
      requires Valid()
      modifies this
      ensures Valid() && (old(Tracks())
              ==> Tracks() && value == if simplified then Translated(kind, tr, source) else source)
      ensures Now() == Step(kind, tr, old(Now()), Action.TranslateTree(simplified))
    {
      hide Inv, CacheAgrees, KeepsInk, Sound, Translated;
      if Tracks() {
        StepKeepsInv(kind, tr, Now(), Action.TranslateTree(simplified));
        InvIsSound(kind, tr, Now());
        SwitchShows(kind, tr, Now(), simplified);
      }
      this.simplified := simplified;
      if !(kind.TextNode? && Skips(kind, value)) {
        if simplified { Convert(); } else { Restore(); }
      }
      observing, records, dropped := simplified, 0, false;
    }

    /** The observer takes all queued records and translates the target of each: at most one write. */
    method Callback()
      requires Valid()
      modifies this
      ensures Valid() && (old(Tracks()) ==> Tracks()) && converts <= old(converts) + 1
      ensures Now() == Step(kind, tr, old(Now()), Action.Callback)
    {
      hide Inv, CacheAgrees, KeepsInk, Sound;
      if Tracks() { StepKeepsInv(kind, tr, Now(), Action.Callback); }
      if !observing || records == 0 { return; }
      var taken := records;
      records := 0;
      if !simplified {
        dropped := true;
        return;
      }
      ghost var before := Now();
      for k := 0 to taken
        invariant Valid() && Now() == if k == 0 then before else ConvertStep(kind, tr, before)
      {
        Convert();
      }
    }
  }

  lemma InvIsSound(kind: Kind, tr: string -> string, s: State)
    requires Inv(kind, tr, s)
    ensures Sound(kind, tr, s)
  {
  }
}
