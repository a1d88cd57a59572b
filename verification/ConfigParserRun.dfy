/**
 Every run of the configuration parser over the start and end tags of a document, or of several that redirect
 to each other: the stack stays in bounds, sections come in their order, and every handler works on the
 object of its enclosing element.
 */
module ConfigParserRun {
  import opened Basics
  import opened ConfigParser

  /** A start tag, an end tag, or the redirection of a codec probe to another file. */
  datatype Event = Open(tag: Tag) | Close | Redirect

  /** A handler that ran successfully. */
  datatype Call = Started(elem: Elem) | Finished(elem: Elem)

  /** The parser, the object made for each open element, the document's nesting, the handlers that ran
      and how many `<mixer>` tags were accepted. */
  datatype World = World(
    p: Parser, made: seq<nat>, depth: nat, closed: bool, log: seq<Call>, mixers: nat)

  predicate ProbeJustLeft(log: seq<Call>) {
    log != [] && log[|log| - 1] == Finished(CodecProbe)
  }

  /** The end handler of a codec probe ran last. */
  predicate MayRedirect(w: World) {
    w.depth == 1 && w.p.error == 0 && ProbeJustLeft(w.log)
  }

  /** Tags are balanced, each file has one root, and only the end of a codec probe redirects. */
  predicate Legal(w: World, ev: Event) {
    match ev
    case Open(_) => !w.closed
    case Close => w.depth > 0
    case Redirect => MayRedirect(w)
  }

  /** The current object that the handlers of an element make or work on. */
  function Owner(c: Current, e: Elem): nat {
    match e
    case Device => c.device
    case Stream => c.stream
    case Path => c.path
    case Init => c.path
    case UseCase => c.usecase
    case Case => c.scase
    case CodecProbe => c.probe
    case _ => 0
  }

  predicate HasObject(e: Elem) {
    e == Device || e == Stream || e == Path || e == Init || e == UseCase || e == Case || e == CodecProbe
  }

  /** Whether the parser can take the event without leaving its stack. */
  predicate Enabled(w: World, ev: Event) {
    && |w.p.entry| == |w.made| == MAX_PARSE_DEPTH && w.p.index < MAX_PARSE_DEPTH
    && (ev.Open? && Accepted(w.p, ev.tag.name).Some? ==> w.p.index + 1 < MAX_PARSE_DEPTH)
    && (ev.Close? && w.p.error == 0 ==> w.p.index > 0)
  }

  /** A start tag read as the element `e`, or as none. */
  function OpenedAs(w: World, e: Option<Elem>, tag: Tag): World
    requires |w.p.entry| == |w.made| == MAX_PARSE_DEPTH && w.p.index < MAX_PARSE_DEPTH
    requires e.Some? ==> w.p.index + 1 < MAX_PARSE_DEPTH
  {
    var p' := StartAs(w.p, e, tag);
    var w' := w.(p := p', mixers := if e == Some(Mixer) then w.mixers + 1 else w.mixers);
    if p'.error != 0 then w'
    else w'.(made := w.made[p'.index := Owner(p'.current, e.value)], log := w.log + [Started(e.value)])
  }

  /** Parsing goes on with another file: do_parse starts again with an empty stack, the earlier probe is
      forgotten, and the current objects and the mixer stay. */
  function Redirected(w: World): World
    requires |w.p.entry| == MAX_PARSE_DEPTH
  {
    var root := w.p.entry[0].(valid := {AudioHal});
    World(w.p.(index := 0, entry := w.p.entry[0 := root], error := 0, probeDefined := false),
          w.made, 0, false, w.log, w.mixers)
  }

  function Apply(w: World, ev: Event): World
    requires Legal(w, ev) && Enabled(w, ev)
  {
    match ev
    case Open(tag) =>
      (if w.p.error != 0 then w else OpenedAs(w, Accepted(w.p, tag.name), tag)).(depth := w.depth + 1)
    case Close =>
      var w' := w.(depth := w.depth - 1, closed := w.depth == 1);
      if w.p.error != 0 then w'
      else w'.(p := End(w.p), log := w.log + [Finished(w.p.entry[w.p.index].elem)])
    case Redirect => Redirected(w)
  }

  /** How deep elements can nest below one. */
  function Height(e: Elem): nat {
    match e
    case AudioHal => 4
    case Stream => 3
    case Device => 2
    case UseCase => 2
    case Mixer => 2
    case Path => 1
    case Case => 1
    case Init => 1
    case CodecProbe => 1
    case _ => 0
  }

  /** The element may stand directly inside the parent, before or after the mixer is open. */
  predicate Inside(parent: Elem, child: Elem) {
    match parent
    case AudioHal => child == Mixer || child == CodecProbe || child == Device || child == Stream
    case Mixer => child == Init
    case CodecProbe => child == CodecCase
    case Device => child == Path
    case Stream => child == StreamCtl || child == Enable || child == Disable || child == UseCase
    case UseCase => child == Case
    case Path => child == Ctl
    case Case => child == Ctl
    case Init => child == Ctl
    case _ => false
  }

  lemma ChildIsLower(parent: Elem, child: Elem)
    requires Inside(parent, child)
    ensures Height(child) < Height(parent)
  {
  }

  lemma TablesAgree(parent: Elem, child: Elem)
    ensures Inside(parent, child) <==> child in ValidSub(parent) || (parent == AudioHal && child in AFTER_MIXER)
  {
  }

  function ElemAt(p: Parser, i: nat): Elem
    requires i < |p.entry|
  {
    p.entry[i].elem
  }

  ghost predicate Nested(p: Parser) {
    && |p.entry| == MAX_PARSE_DEPTH && p.index < MAX_PARSE_DEPTH
    && (forall i :: 1 <= i <= p.index ==> i + Height(ElemAt(p, i)) <= 5)
    && (p.index >= 1 ==> ElemAt(p, 1) == AudioHal)
    && (forall i :: 2 <= i <= p.index ==> Inside(ElemAt(p, i - 1), ElemAt(p, i)))
  }

  /** What each open element allows: the table's sets, except that a mixer has made the root to devices
      and streams. */
  ghost predicate Tables(p: Parser)
    requires Nested(p)
  {
    && p.entry[0].valid == {AudioHal}
    && (p.index >= 1 ==> p.entry[1].valid == if p.mixer then AFTER_MIXER else ValidSub(AudioHal))
    && (forall i :: 2 <= i <= p.index ==> p.entry[i].valid == ValidSub(ElemAt(p, i)))
  }

  /** Every open element's object is the current one of its kind. */
  ghost predicate Objects(p: Parser, made: seq<nat>)
    requires Nested(p)
  {
    && |made| == MAX_PARSE_DEPTH && p.next >= 2
    && (forall i :: 1 <= i <= p.index && HasObject(ElemAt(p, i)) ==> made[i] != 0 && Owner(p.current, ElemAt(p, i)) == made[i])
    && (forall i :: 1 <= i <= p.index && ElemAt(p, i) == Case ==> made[i] != INIT_PATH)
  }

  /** `<init>` was entered and no `<path>` has been left since. */
  function InitPending(log: seq<Call>): bool {
    if log == [] then false
    else if log[|log| - 1] == Started(Init) then true
    else if log[|log| - 1] == Finished(Path) then false
    else InitPending(log[..|log| - 1])
  }

  ghost predicate InPath(p: Parser)
    requires |p.entry| == MAX_PARSE_DEPTH
  {
    p.index >= 3 && ElemAt(p, 3) == Path
  }

  ghost predicate Inv(w: World) {
    && Nested(w.p) && |w.made| == MAX_PARSE_DEPTH && w.mixers <= 1
    && (w.closed ==> w.depth == 0)
    && (w.p.error == 0 ==>
          && w.p.index == w.depth && Tables(w.p) && Objects(w.p, w.made)
          && (w.mixers == 1 <==> w.p.mixer)
          && (w.depth == 0 && !w.closed ==> !w.p.mixer)
          && (ProbeJustLeft(w.log) ==> !w.p.mixer)
          && (w.p.index >= 2 ==> (ElemAt(w.p, 2) != CodecProbe <==> w.p.mixer))
          && (!InPath(w.p) ==> w.p.current.path == if InitPending(w.log) then INIT_PATH else 0))
  }

  /** What the innermost open element allows is below it in the grammar. */
  lemma AllowedBelow(w: World, e: Elem)
    requires Inv(w) && w.p.error == 0 && e in w.p.entry[w.p.index].valid
    ensures w.p.index == 0 ==> e == AudioHal
    ensures w.p.index > 0 ==> Inside(ElemAt(w.p, w.p.index), e) && w.p.index + 1 + Height(e) <= 5
  {
    if w.p.index > 0 {
      TablesAgree(ElemAt(w.p, w.p.index), e);
      ChildIsLower(ElemAt(w.p, w.p.index), e);
    }
  }

  lemma LegalIsEnabled(w: World, ev: Event)
    requires Inv(w) && Legal(w, ev)
    ensures Enabled(w, ev)
  {
    if ev.Open? && Accepted(w.p, ev.tag.name).Some? {
      AllowedBelow(w, Accepted(w.p, ev.tag.name).value);
    }
  }

  lemma PushNested(p: Parser, e: Elem)
    requires Nested(p) && p.index + 1 < MAX_PARSE_DEPTH
    requires if p.index == 0 then e == AudioHal else Inside(ElemAt(p, p.index), e) && p.index + 1 + Height(e) <= 5
    ensures Nested(Pushed(p, e))
  {
    var p' := Pushed(p, e);
    assert forall i :: 0 <= i <= p.index ==> ElemAt(p', i) == ElemAt(p, i);
    assert ElemAt(p', p'.index) == e;
    forall i | 2 <= i <= p'.index ensures Inside(ElemAt(p', i - 1), ElemAt(p', i)) {
      assert ElemAt(p', i - 1) == ElemAt(p, i - 1);
    }
  }

  /** Elements of the same kind, or sharing a current object, are never open at once. */
  lemma DistinctKinds(p: Parser, i: nat)
    requires Nested(p) && 1 <= i < p.index
    ensures Height(ElemAt(p, i)) > Height(ElemAt(p, p.index))
  {
    DistinctBelow(p, i, p.index);
  }

  lemma {:induction false} DistinctBelow(p: Parser, i: nat, j: nat)
    requires Nested(p) && 1 <= i < j <= p.index
    ensures Height(ElemAt(p, i)) > Height(ElemAt(p, j))
    decreases j - i
  {
    ChildIsLower(ElemAt(p, j - 1), ElemAt(p, j));
    if i < j - 1 {
      DistinctBelow(p, i, j - 1);
    }
  }

  /** A handler changes no current object but its own kind's. */
  lemma HandlerKeepsOthers(p: Parser, e: Elem, other: Elem)
    requires 0 < p.index < |p.entry| && Height(other) > Height(e) && p.next >= 2
    ensures Owner(Handled(p, e).current, other) == Owner(p.current, other)
    ensures Owner(Ended(p.current, e), other) == Owner(p.current, other)
    ensures HasObject(e) ==> Owner(Handled(p, e).current, e) != 0
  {
  }

  /** The stack after a successful handler: the same elements. */
  lemma HandledStack(p: Parser, e: Elem)
    requires 0 < p.index < |p.entry|
    ensures var p' := Handled(p, e);
      && p'.index == p.index && |p'.entry| == |p.entry| && p'.error == p.error && p'.next >= p.next
      && (forall i :: 0 <= i < |p.entry| ==> p'.entry[i].elem == p.entry[i].elem)
      && (e != Mixer ==> p'.entry == p.entry && p'.mixer == p.mixer)
      && (e == Mixer ==> p'.mixer && p'.entry == p.entry[p.index - 1 := p.entry[p.index - 1].(valid := AFTER_MIXER)])
  {
  }

  lemma SameNesting(p: Parser, p': Parser)
    requires Nested(p) && p'.index == p.index && |p'.entry| == |p.entry|
    requires forall i :: 0 <= i < |p.entry| ==> p'.entry[i].elem == p.entry[i].elem
    ensures Nested(p')
  {
    assert forall i :: 0 <= i < |p.entry| ==> ElemAt(p', i) == ElemAt(p, i);
  }

  /** An element that was open keeps its object. */
  lemma ObjectKept(p: Parser, e: Elem, i: nat)
    requires Nested(p) && p.index + 1 < MAX_PARSE_DEPTH && Nested(Pushed(p, e)) && 1 <= i <= p.index && p.next >= 2
    ensures Owner(Handled(Pushed(p, e), e).current, ElemAt(p, i)) == Owner(p.current, ElemAt(p, i))
  {
    var q := Pushed(p, e);
    DistinctKinds(q, i);
    assert ElemAt(q, i) == ElemAt(p, i) && ElemAt(q, q.index) == e;
    HandlerKeepsOthers(q, e, ElemAt(p, i));
  }

  lemma PushObjects(p: Parser, made: seq<nat>, e: Elem)
    requires Nested(p) && Objects(p, made) && p.index + 1 < MAX_PARSE_DEPTH && Nested(Pushed(p, e))
    ensures var p' := Handled(Pushed(p, e), e);
      Nested(p') && Objects(p', made[p'.index := Owner(p'.current, e)])
  {
    HandledElems(p, e);
    HandledStack(Pushed(p, e), e);
    NewObject(Pushed(p, e), e);
    forall i | 1 <= i <= p.index ensures Owner(Handled(Pushed(p, e), e).current, ElemAt(p, i)) == Owner(p.current, ElemAt(p, i)) {
      ObjectKept(p, e, i);
    }
    ObjectsMore(p, made, e, Handled(Pushed(p, e), e));
  }

  /** A new object is not null, and a new case is not the initial path. */
  lemma NewObject(p: Parser, e: Elem)
    requires 0 < p.index < |p.entry| && p.next >= 2
    ensures HasObject(e) ==> Owner(Handled(p, e).current, e) != 0
    ensures e == Case ==> Owner(Handled(p, e).current, e) != INIT_PATH
  {
  }

  lemma ObjectsMore(p: Parser, made: seq<nat>, e: Elem, p': Parser)
    requires Nested(p) && Objects(p, made) && Nested(p') && p'.index == p.index + 1 && p'.next >= 2
    requires ElemAt(p', p'.index) == e && forall i :: 0 <= i <= p.index ==> ElemAt(p', i) == ElemAt(p, i)
    requires forall i :: 1 <= i <= p.index ==> Owner(p'.current, ElemAt(p, i)) == Owner(p.current, ElemAt(p, i))
    requires HasObject(e) ==> Owner(p'.current, e) != 0
    requires e == Case ==> Owner(p'.current, e) != INIT_PATH
    ensures Objects(p', made[p'.index := Owner(p'.current, e)])
  {
  }

  /** Only `<mixer>`, right below the root, changes what an open element allows. */
  lemma PushTables(p: Parser, e: Elem)
    requires Nested(p) && Tables(p) && p.index + 1 < MAX_PARSE_DEPTH && e in p.entry[p.index].valid
    requires (p.index == 0 ==> !p.mixer) && (e == Mixer ==> p.index == 1) && (p.index == 0 ==> e == AudioHal)
    requires Nested(Pushed(p, e)) && Nested(Handled(Pushed(p, e), e))
    ensures Tables(Handled(Pushed(p, e), e))
  {
    var q := Pushed(p, e);
    HandledStack(q, e);
    var p' := Handled(q, e);
    forall i | 2 <= i <= p'.index ensures p'.entry[i].valid == ValidSub(ElemAt(p', i)) {
      assert p'.entry[i] == q.entry[i];
      assert i < q.index ==> q.entry[i] == p.entry[i] && ElemAt(p, i) == ElemAt(p', i);
    }
  }

  /** A `<mixer>` is accepted only directly inside a root that has none yet. */
  lemma MixerOnlyFirst(w: World)
    requires Inv(w) && w.p.error == 0 && Mixer in w.p.entry[w.p.index].valid
    ensures w.p.index == 1 && !w.p.mixer && w.mixers == 0
  {
    AllowedBelow(w, Mixer);
  }

  lemma LogMore(log: seq<Call>, c: Call)
    ensures InitPending(log + [c]) == if c == Started(Init) then true else if c == Finished(Path) then false else InitPending(log)
  {
    assert (log + [c])[..|log|] == log;
  }

  /** `<path>` only ever opens at the third level. */
  lemma PathLevel(w: World)
    requires Inv(w) && w.p.error == 0 && Path in w.p.entry[w.p.index].valid
    ensures w.p.index == 2
  {
    AllowedBelow(w, Path);
    assert ElemAt(w.p, w.p.index) == Device;
  }

  lemma OpenKeepsInv(w: World, e: Elem, tag: Tag)
    requires Inv(w) && !w.closed && w.p.error == 0 && e in w.p.entry[w.p.index].valid
    ensures w.p.index + 1 < MAX_PARSE_DEPTH
    ensures Inv(OpenedAs(w, Some(e), tag).(depth := w.depth + 1))
  {
    AllowedBelow(w, e);
    PushNested(w.p, e);
    if e == Mixer {
      MixerOnlyFirst(w);
    }
    if Outcome(w.p, e, tag) == 0 {
      HandledKeepsInv(w, e, tag);
    } else {
      FailedKeepsInv(w, e, tag);
    }
  }

  /** After a failed handler only the bounds matter: all further tags are ignored. */
  lemma FailedKeepsInv(w: World, e: Elem, tag: Tag)
    requires Inv(w) && !w.closed && w.p.error == 0 && w.p.index + 1 < MAX_PARSE_DEPTH
    requires Outcome(w.p, e, tag) != 0 && Nested(Pushed(w.p, e)) && (e == Mixer ==> w.mixers == 0)
    ensures Inv(OpenedAs(w, Some(e), tag).(depth := w.depth + 1))
  {
    var w' := OpenedAs(w, Some(e), tag).(depth := w.depth + 1);
    assert w'.p.error != 0;
    SameNesting(Pushed(w.p, e), w'.p);
  }

  lemma HandledKeepsInv(w: World, e: Elem, tag: Tag)
    requires Inv(w) && !w.closed && w.p.error == 0 && e in w.p.entry[w.p.index].valid
    requires w.p.index + 1 < MAX_PARSE_DEPTH && Outcome(w.p, e, tag) == 0 && Nested(Pushed(w.p, e))
    requires e == Mixer ==> w.p.index == 1 && !w.p.mixer && w.mixers == 0
    ensures Inv(OpenedAs(w, Some(e), tag).(depth := w.depth + 1))
  {
    AllowedBelow(w, e);
    var q := Pushed(w.p, e);
    HandledElems(w.p, e);
    PushObjects(w.p, w.made, e);
    PushTables(w.p, e);
    PathAfter(w, e);
    if e == Path {
      PathLevel(w);
    }
    if w.p.index == 1 {
      SecondLevel(w, e);
    }
    OpenedWorld(w, e, tag);
    InvAfter(w, e, Handled(q, e));
  }

  lemma OpenedWorld(w: World, e: Elem, tag: Tag)
    requires |w.p.entry| == |w.made| == MAX_PARSE_DEPTH && w.p.index + 1 < MAX_PARSE_DEPTH && w.p.error == 0
    requires Outcome(w.p, e, tag) == 0 && !w.closed
    ensures var p' := Handled(Pushed(w.p, e), e);
      p'.error == 0 && p'.index == w.p.index + 1 &&
      OpenedAs(w, Some(e), tag).(depth := w.depth + 1) ==
        World(p', w.made[p'.index := Owner(p'.current, e)], w.depth + 1, false, w.log + [Started(e)],
              if e == Mixer then w.mixers + 1 else w.mixers)
  {
    HandledStack(Pushed(w.p, e), e);
  }

  lemma HandledElems(p: Parser, e: Elem)
    requires Nested(p) && p.index + 1 < MAX_PARSE_DEPTH && Nested(Pushed(p, e))
    ensures var p' := Handled(Pushed(p, e), e);
      && Nested(p') && ElemAt(p', p'.index) == e && p'.mixer == (p.mixer || e == Mixer)
      && (forall i :: 0 <= i <= p.index ==> ElemAt(p', i) == ElemAt(p, i))
  {
    var q := Pushed(p, e);
    HandledStack(q, e);
    SameNesting(q, Handled(q, e));
    assert forall i :: 0 <= i <= p.index ==> ElemAt(q, i) == ElemAt(p, i);
  }

  /** Only a codec probe or a mixer can be entered before the mixer is open. */
  lemma SecondLevel(w: World, e: Elem)
    requires Inv(w) && w.p.error == 0 && e in w.p.entry[w.p.index].valid && w.p.index == 1
    ensures e != CodecProbe <==> e == Mixer || w.p.mixer
  {
  }

  lemma InvAfter(w: World, e: Elem, p': Parser)
    requires Inv(w) && !w.closed && w.p.error == 0 && p'.error == 0
    requires e == Mixer ==> w.p.index == 1 && !w.p.mixer && w.mixers == 0
    requires w.p.index == 1 ==> (e != CodecProbe <==> e == Mixer || w.p.mixer)
    requires e == Path ==> w.p.index == 2
    requires p'.index == w.p.index + 1 && p'.mixer == (w.p.mixer || e == Mixer)
    requires p'.current.path == if e == Path then w.p.next else if e == Init then INIT_PATH else w.p.current.path
    requires Nested(p') && ElemAt(p', p'.index) == e && forall i :: 0 <= i <= w.p.index ==> ElemAt(p', i) == ElemAt(w.p, i)
    requires Tables(p') && Objects(p', w.made[p'.index := Owner(p'.current, e)])
    ensures Inv(World(p', w.made[p'.index := Owner(p'.current, e)], w.depth + 1, false, w.log + [Started(e)],
                      if e == Mixer then w.mixers + 1 else w.mixers))
  {
    LogMore(w.log, Started(e));
    if InPath(w.p) {
      assert InPath(p');
    }
    if InPath(p') && !InPath(w.p) {
      assert e == Path;
    }
  }

  /** A handler changes the current path only for `<path>` and `<init>`. */
  lemma PathAfter(w: World, e: Elem)
    requires 0 < w.p.index + 1 < |w.p.entry|
    ensures Handled(Pushed(w.p, e), e).current.path ==
      if e == Path then w.p.next else if e == Init then INIT_PATH else w.p.current.path
  {
  }

  /** Leaving an element keeps the objects of those around it. */
  lemma PopObjects(p: Parser, made: seq<nat>)
    requires Nested(p) && Objects(p, made) && p.error == 0 && p.index > 0 && Nested(End(p))
    ensures Objects(End(p), made)
  {
    var p' := End(p);
    forall i | 1 <= i <= p'.index && HasObject(ElemAt(p', i)) ensures Owner(p'.current, ElemAt(p', i)) == made[i] {
      DistinctKinds(p, i);
      assert ElemAt(p', i) == ElemAt(p, i);
      HandlerKeepsOthers(p, ElemAt(p, p.index), ElemAt(p, i));
    }
  }

  lemma CloseKeepsInv(w: World)
    requires Inv(w) && Legal(w, Close) && Enabled(w, Close)
    ensures Inv(Apply(w, Close))
  {
    if w.p.error == 0 {
      PopNested(w.p);
      PopObjects(w.p, w.made);
      if ElemAt(w.p, w.p.index) == Path {
        PathIsThird(w);
      }
      if ElemAt(w.p, w.p.index) == CodecProbe {
        ProbeIsSecond(w);
      }
      InvBefore(w, End(w.p));
    }
  }

  lemma ProbeIsSecond(w: World)
    requires Inv(w) && w.p.error == 0 && w.p.index > 0 && ElemAt(w.p, w.p.index) == CodecProbe
    ensures w.p.index == 2 && !w.p.mixer
  {
    assert w.p.index >= 2;
    assert Inside(ElemAt(w.p, w.p.index - 1), CodecProbe);
    assert ElemAt(w.p, w.p.index - 1) == AudioHal;
  }

  /** Where a file is left no mixer was accepted yet, so the next one starts under the same invariant. */
  lemma RedirectKeepsInv(w: World)
    requires Inv(w) && MayRedirect(w)
    ensures Inv(Redirected(w)) && w.mixers == 0
  {
    SameRoot(w.p, Redirected(w).p);
  }

  lemma SameRoot(p: Parser, p': Parser)
    requires Nested(p) && p'.index == 0 && |p'.entry| == MAX_PARSE_DEPTH
    ensures Nested(p')
  {
  }

  lemma PopNested(p: Parser)
    requires Nested(p) && p.error == 0 && p.index > 0
    ensures Nested(End(p)) && forall i :: 0 <= i < MAX_PARSE_DEPTH ==> ElemAt(End(p), i) == ElemAt(p, i)
  {
    var p' := End(p);
    assert forall i :: 0 <= i < MAX_PARSE_DEPTH ==> ElemAt(p', i) == ElemAt(p, i);
  }

  lemma InvBefore(w: World, p': Parser)
    requires Inv(w) && w.p.error == 0 && w.depth > 0 && p' == End(w.p) && Nested(p') && Objects(p', w.made)
    requires forall i :: 0 <= i < MAX_PARSE_DEPTH ==> ElemAt(p', i) == ElemAt(w.p, i)
    requires ElemAt(w.p, w.p.index) == Path ==> w.p.index == 3
    requires ElemAt(w.p, w.p.index) == CodecProbe ==> !w.p.mixer
    ensures Inv(w.(p := p', depth := w.depth - 1, closed := w.depth == 1, log := w.log + [Finished(ElemAt(w.p, w.p.index))]))
  {
    LogMore(w.log, Finished(ElemAt(w.p, w.p.index)));
    if InPath(w.p) && ElemAt(w.p, w.p.index) != Path {
      assert w.p.index > 3;
    }
  }

  lemma PathIsThird(w: World)
    requires Inv(w) && w.p.error == 0 && w.p.index > 0 && ElemAt(w.p, w.p.index) == Path
    ensures w.p.index == 3
  {
    assert w.p.index >= 2;
    assert Inside(ElemAt(w.p, w.p.index - 1), Path);
    assert ElemAt(w.p, w.p.index - 1) == Device;
  }

  function Begin(): World {
    World(Fresh(), seq(MAX_PARSE_DEPTH, _ => 0), 0, false, [], 0)
  }

  /** The world after the events of a document read so far; None when they are not balanced. */
  function Run(evs: seq<Event>): Option<World> {
    if evs == [] then Some(Begin()) else Continue(Run(evs[..|evs| - 1]), evs[|evs| - 1])
  }

  function Continue(w: Option<World>, ev: Event): Option<World> {
    if w.Some? && Legal(w.value, ev) && Enabled(w.value, ev) then Some(Apply(w.value, ev)) else None
  }

  /** The start and end tags of each file are a prefix of one balanced document; the parser has no say in it. */
  function Nesting(evs: seq<Event>): Option<(nat, bool)> {
    if evs == [] then Some((0, false))
    else
      var d := Nesting(evs[..|evs| - 1]);
      if d.None? then None
      else
        match evs[|evs| - 1]
        case Open(_) => if d.value.1 then None else Some((d.value.0 + 1, false))
        case Close => if d.value.0 == 0 then None else Some((d.value.0 - 1, d.value.0 == 1))
        case Redirect => Some((0, false))
  }

  lemma BeginInv()
    ensures Inv(Begin())
  {
  }

  lemma IgnoredKeepsInv(w: World, tag: Tag)
    requires Inv(w) && !w.closed && w.p.error != 0 && Enabled(w, Open(tag))
    ensures Inv(Apply(w, Open(tag)))
  {
  }

  lemma RejectedKeepsInv(w: World, tag: Tag)
    requires Inv(w) && !w.closed && w.p.error == 0 && Enabled(w, Open(tag)) && Accepted(w.p, tag.name).None?
    ensures Inv(Apply(w, Open(tag)))
  {
    SameNesting(w.p, Apply(w, Open(tag)).p);
  }

  lemma StepKeepsInv(w: World, ev: Event)
    requires Inv(w) && Legal(w, ev)
    ensures Enabled(w, ev) && Inv(Apply(w, ev))
  {
    LegalIsEnabled(w, ev);
    match ev
    case Open(tag) =>
      if w.p.error != 0 {
        IgnoredKeepsInv(w, tag);
      } else if Accepted(w.p, tag.name).Some? {
        OpenKeepsInv(w, Accepted(w.p, tag.name).value, tag);
      } else {
        RejectedKeepsInv(w, tag);
      }
    case Close => CloseKeepsInv(w);
    case Redirect => RedirectKeepsInv(w);
  }

  lemma StepNesting(w: World, ev: Event)
    requires Legal(w, ev) && Enabled(w, ev)
    ensures Apply(w, ev).depth == if ev.Open? then w.depth + 1 else if ev.Close? then w.depth - 1 else 0
    ensures Apply(w, ev).closed == (ev.Close? && w.depth == 1)
  {
  }

  /** Every redirection follows the end handler of a codec probe. */
  predicate RedirectsOk(evs: seq<Event>) {
    evs == [] ||
    (var front := evs[..|evs| - 1];
     && RedirectsOk(front)
     && (evs[|evs| - 1].Redirect? ==> Run(front).Some? && MayRedirect(Run(front).value)))
  }

  /** Balanced documents, one or several that redirect to each other. */
  predicate Documents(evs: seq<Event>) {
    Nesting(evs).Some? && RedirectsOk(evs)
  }

  /** The parser takes every event of every balanced document and of every chain of documents, and the
      invariant holds after each: its stack of six entries is never left, although the depth test alone would
      allow a seventh, and one mixer is accepted for all files. */
  lemma {:induction false} RunInv(evs: seq<Event>)
    requires Documents(evs)
    ensures Run(evs).Some? && Inv(Run(evs).value)
    ensures Nesting(evs).value == (Run(evs).value.depth, Run(evs).value.closed)
  {
    if evs == [] {
      BeginInv();
    } else {
      RunInv(evs[..|evs| - 1]);
      ContinueInv(Run(evs[..|evs| - 1]).value, evs[|evs| - 1]);
    }
  }

  lemma ContinueInv(w: World, ev: Event)
    requires Inv(w) && Legal(w, ev)
    ensures Continue(Some(w), ev).Some? && Inv(Continue(Some(w), ev).value)
    ensures Continue(Some(w), ev).value.depth == if ev.Open? then w.depth + 1 else if ev.Close? then w.depth - 1 else 0
    ensures Continue(Some(w), ev).value.closed == (ev.Close? && w.depth == 1)
  {
    StepKeepsInv(w, ev);
    StepNesting(w, ev);
  }

  /** The element whose handlers need an enclosing object, and the element that gives it. */
  function ParentOf(e: Elem): Option<Elem> {
    match e
    case Path => Some(Device)
    case UseCase => Some(Stream)
    case Case => Some(UseCase)
    case StreamCtl => Some(Stream)
    case Enable => Some(Stream)
    case Disable => Some(Stream)
    case CodecCase => Some(CodecProbe)
    case _ => None
  }

  /** Where the controls of an accepted `<ctl>` go: parse_ctl_start. */
  function CtlTarget(c: Current): nat {
    if c.path != 0 then c.path else c.scase
  }

  /** All elements but the root, the mixer and the codec probe with its cases. */
  predicate NeedsMixer(e: Elem) {
    e != AudioHal && e != Mixer && e != CodecProbe && e != CodecCase
  }

  /** The parent the handler of `e` works on is the object of the innermost open element. */
  ghost predicate InContext(w: World, e: Elem)
    requires Nested(w.p) && |w.made| == MAX_PARSE_DEPTH
  {
    && w.p.index + 1 <= 5
    && (NeedsMixer(e) ==> w.p.mixer)
    && (e == Mixer ==> w.mixers == 0)
    && (ParentOf(e).Some? ==>
          && w.p.index > 0 && ElemAt(w.p, w.p.index) == ParentOf(e).value
          && w.made[w.p.index] != 0 && Owner(w.p.current, ParentOf(e).value) == w.made[w.p.index])
  }

  lemma MixerIsOpen(w: World, e: Elem)
    requires Inv(w) && w.p.error == 0 && e in w.p.entry[w.p.index].valid && NeedsMixer(e)
    ensures w.p.mixer
  {
    AllowedBelow(w, e);
    if w.p.index >= 2 {
      UnderMixer(w);
    }
  }

  lemma ParentIsOpen(w: World, e: Elem)
    requires Inv(w) && w.p.error == 0 && e in w.p.entry[w.p.index].valid && ParentOf(e).Some?
    ensures w.p.index > 0 && ElemAt(w.p, w.p.index) == ParentOf(e).value
  {
    AllowedBelow(w, e);
  }

  lemma StartInContext(w: World, e: Elem)
    requires Inv(w) && w.p.error == 0 && e in w.p.entry[w.p.index].valid
    ensures InContext(w, e)
  {
    AllowedBelow(w, e);
    if e == Mixer {
      MixerOnlyFirst(w);
    }
    if NeedsMixer(e) {
      MixerIsOpen(w, e);
    }
    if ParentOf(e).Some? {
      ParentIsOpen(w, e);
    }
  }

  /** Whenever a start handler runs, on any prefix of any chain of documents: the stack entry it is pushed to
      exists; devices, streams and all that is inside them come after a successful mixer; only one mixer
      is accepted; and the parent the handler works on is the object of the enclosing element. */
  lemma StartHandlersAreInContext(evs: seq<Event>, tag: Tag)
    requires Documents(evs)
    ensures Run(evs).Some? && Inv(Run(evs).value)
    ensures var w := Run(evs).value; Accepted(w.p, tag.name).Some? ==> InContext(w, Accepted(w.p, tag.name).value)
  {
    RunInv(evs);
    var w := Run(evs).value;
    if Accepted(w.p, tag.name).Some? {
      StartInContext(w, Accepted(w.p, tag.name).value);
    }
  }

  /** Inside a device or a stream the mixer is open. */
  lemma UnderMixer(w: World)
    requires Inv(w) && w.p.error == 0 && w.p.index > 0 && ElemAt(w.p, w.p.index) != CodecProbe && ElemAt(w.p, w.p.index) != CodecCase && ElemAt(w.p, w.p.index) != AudioHal
    ensures w.p.mixer
  {
    assert w.p.index >= 2;
    if w.p.index > 2 {
      assert Inside(ElemAt(w.p, 2), ElemAt(w.p, 3));
    }
    if w.p.index > 3 {
      assert Inside(ElemAt(w.p, 3), ElemAt(w.p, 4));
    }
  }

  /** An end handler works on the object its own start tag made. */
  lemma EndHandlersAreInContext(evs: seq<Event>)
    requires Documents(evs + [Close])
    ensures Run(evs).Some? && Inv(Run(evs).value)
    ensures var w := Run(evs).value;
      w.p.error == 0 ==>
        && w.p.index > 0
        && (HasObject(ElemAt(w.p, w.p.index)) ==>
              w.made[w.p.index] != 0 && Owner(w.p.current, ElemAt(w.p, w.p.index)) == w.made[w.p.index])
  {
    assert (evs + [Close])[..|evs|] == evs;
    RunInv(evs);
  }

  /** A control inside a `<case>` is added to that case exactly when no `<init>` is pending, that is, when
      a `<path>` has been left since the last `<init>` or there was none; otherwise it is added to the
      initial mixer settings. */
  lemma CaseControlsIff(evs: seq<Event>)
    requires Documents(evs)
    ensures Run(evs).Some? && Inv(Run(evs).value)
    ensures var w := Run(evs).value;
      w.p.error == 0 && w.p.index > 0 && ElemAt(w.p, w.p.index) == Case ==>
        && CtlTarget(w.p.current) == (if InitPending(w.log) then INIT_PATH else w.made[w.p.index])
        && (CtlTarget(w.p.current) == w.made[w.p.index] <==> !InitPending(w.log))
  {
    RunInv(evs);
    var w := Run(evs).value;
    if w.p.error == 0 && w.p.index > 0 && ElemAt(w.p, w.p.index) == Case {
      CaseTarget(w);
    }
  }

  lemma CaseTarget(w: World)
    requires Inv(w) && w.p.error == 0 && w.p.index > 0 && ElemAt(w.p, w.p.index) == Case
    ensures CtlTarget(w.p.current) == (if InitPending(w.log) then INIT_PATH else w.made[w.p.index])
    ensures CtlTarget(w.p.current) == w.made[w.p.index] <==> !InitPending(w.log)
  {
    CaseNotInPath(w);
    assert HasObject(Case) && Owner(w.p.current, Case) == w.made[w.p.index];
  }

  lemma CaseNotInPath(w: World)
    requires Inv(w) && w.p.error == 0 && w.p.index > 0 && ElemAt(w.p, w.p.index) == Case
    ensures !InPath(w.p)
  {
    assert Inside(ElemAt(w.p, w.p.index - 1), ElemAt(w.p, w.p.index));
    if w.p.index > 3 {
      DistinctBelow(w.p, 3, w.p.index);
    }
  }

  lemma {:induction false} FindsOnly(valid: set<Elem>, e: Elem, i: nat, k: nat)
    requires i <= k < |ELEMS| && ELEMS[k] == e && e in valid && forall f :: f in valid && Name(f) == Name(e) ==> f == e
    ensures Find(valid, Name(e), i) == Some(e)
    decreases k - i
  {
    if i < k {
      FindsOnly(valid, e, i + 1, k);
    }
  }

  lemma NamesDiffer(parent: Elem, e: Elem, f: Elem)
    requires Inside(parent, e) && Inside(parent, f) && Name(e) == Name(f)
    ensures e == f
  {
  }

  lemma InTable(e: Elem) returns (k: nat)
    ensures k < |ELEMS| && ELEMS[k] == e
  {
    k := match e
      case Ctl => 0 case Path => 1 case Device => 2 case Stream => 3 case Enable => 4 case Disable => 5
      case Case => 6 case UseCase => 7 case StreamCtl => 8 case Init => 9 case Mixer => 10
      case AudioHal => 11 case CodecProbe => 12 case CodecCase => 13;
  }

  /** Names that the table gives to two elements are never both allowed: an allowed element's name is
      always read as that element. */
  lemma AllowedIsFound(w: World, e: Elem)
    requires Inv(w) && w.p.error == 0 && e in w.p.entry[w.p.index].valid
    ensures Accepted(w.p, Name(e)) == Some(e)
  {
    var valid := w.p.entry[w.p.index].valid;
    forall f | f in valid && Name(f) == Name(e) ensures f == e {
      AllowedBelow(w, e);
      AllowedBelow(w, f);
      if w.p.index > 0 {
        NamesDiffer(ElemAt(w.p, w.p.index), e, f);
      }
    }
    var k := InTable(e);
    FindsOnly(valid, e, 0, k);
  }

  lemma OneMore(evs: seq<Event>, w: World, ev: Event)
    requires Run(evs) == Some(w) && Legal(w, ev) && Enabled(w, ev)
    ensures Run(evs + [ev]) == Some(Apply(w, ev))
  {
    assert (evs + [ev])[..|evs|] == evs;
  }

  function Opening(e: Elem): Event { Open(Tag(Name(e), true, 0)) }

  /** What accepting a start tag with a successful handler does. */
  lemma OneMoreOpen(evs: seq<Event>, w: World, e: Elem) returns (w': World)
    requires Run(evs) == Some(w) && Inv(w) && !w.closed && w.p.error == 0 && (e == CodecProbe ==> !w.p.probeDefined)
    requires e in w.p.entry[w.p.index].valid
    ensures Run(evs + [Opening(e)]) == Some(w') && Inv(w') && !w'.closed && w'.p.error == 0
    ensures w'.depth == w.depth + 1 && w'.log == w.log + [Started(e)]
    ensures w'.p.mixer == (w.p.mixer || e == Mixer) && w'.p.index == w.p.index + 1
    ensures w'.p.probeDefined == (w.p.probeDefined || e == CodecProbe)
    ensures ElemAt(w'.p, w'.p.index) == e && ElemAt(w'.p, w.p.index) == ElemAt(w.p, w.p.index)
  {
    AllowedIsFound(w, e);
    OpenKeepsInv(w, e, Opening(e).tag);
    OneMore(evs, w, Opening(e));
    w' := OpenedAs(w, Some(e), Opening(e).tag).(depth := w.depth + 1);
    AfterOpening(w, e, w');
  }

  lemma AfterOpening(w: World, e: Elem, w': World)
    requires Inv(w) && !w.closed && w.p.error == 0 && (e == CodecProbe ==> !w.p.probeDefined)
    requires e in w.p.entry[w.p.index].valid && w.p.index + 1 < MAX_PARSE_DEPTH
    requires w' == OpenedAs(w, Some(e), Opening(e).tag).(depth := w.depth + 1)
    ensures !w'.closed && w'.p.error == 0 && w'.depth == w.depth + 1 && w'.log == w.log + [Started(e)]
    ensures w'.p.mixer == (w.p.mixer || e == Mixer) && w'.p.index == w.p.index + 1
    ensures w'.p.probeDefined == (w.p.probeDefined || e == CodecProbe)
    ensures |w'.p.entry| == |w.p.entry| && ElemAt(w'.p, w'.p.index) == e && ElemAt(w'.p, w.p.index) == ElemAt(w.p, w.p.index)
  {
    AllowedBelow(w, e);
    PushNested(w.p, e);
    OpenedWorld(w, e, Opening(e).tag);
    HandledElems(w.p, e);
    HandledProbe(Pushed(w.p, e), e);
  }

  lemma HandledProbe(p: Parser, e: Elem)
    requires 0 < p.index < |p.entry|
    ensures Handled(p, e).probeDefined == (p.probeDefined || e == CodecProbe)
  {
  }

  lemma OneMoreClose(evs: seq<Event>, w: World) returns (w': World)
    requires Run(evs) == Some(w) && Inv(w) && w.depth > 1 && w.p.error == 0
    ensures Run(evs + [Close]) == Some(w') && Inv(w') && !w'.closed && w'.p == End(w.p) && w'.p.error == 0
    ensures w'.depth == w.depth - 1 && w'.log == w.log + [Finished(ElemAt(w.p, w.p.index))]
  {
    StepKeepsInv(w, Close);
    OneMore(evs, w, Close);
    w' := Apply(w, Close);
  }

  /** A document up to inside its initial settings. */
  lemma InitDocument() returns (evs: seq<Event>, w: World)
    ensures Run(evs) == Some(w) && Inv(w) && w.depth == 3 && w.p.error == 0 && InitPending(w.log)
    ensures ElemAt(w.p, 3) == Init && ElemAt(w.p, 2) == Mixer && w.p.mixer
  {
    BeginInv();
    w := OneMoreOpen([], Begin(), AudioHal);
    evs := [] + [Opening(AudioHal)];
    w := MixerInit(evs, w);
    evs := evs + [Opening(Mixer)] + [Opening(Init)];
  }

  lemma AllowedInside(w: World)
    requires Inv(w) && w.p.error == 0 && w.p.index >= 2
    ensures w.p.entry[w.p.index].valid == ValidSub(ElemAt(w.p, w.p.index))
  {
  }

  lemma MixerInit(evs: seq<Event>, w: World) returns (w': World)
    requires Run(evs) == Some(w) && Inv(w) && w.depth == 1 && !w.closed && w.p.error == 0 && !w.p.mixer
    ensures Run(evs + [Opening(Mixer)] + [Opening(Init)]) == Some(w') && Inv(w') && w'.depth == 3 && w'.p.error == 0
    ensures InitPending(w'.log) && ElemAt(w'.p, 3) == Init && ElemAt(w'.p, 2) == Mixer && w'.p.mixer
  {
    var w1 := OneMoreOpen(evs, w, Mixer);
    w' := InitInMixer(evs + [Opening(Mixer)], w1);
  }

  lemma InitInMixer(evs: seq<Event>, w: World) returns (w': World)
    requires Run(evs) == Some(w) && Inv(w) && w.depth == 2 && !w.closed && w.p.error == 0
    requires ElemAt(w.p, 2) == Mixer && w.p.mixer
    ensures Run(evs + [Opening(Init)]) == Some(w') && Inv(w') && w'.depth == 3 && w'.p.error == 0
    ensures InitPending(w'.log) && ElemAt(w'.p, 3) == Init && ElemAt(w'.p, 2) == Mixer && w'.p.mixer
  {
    LogMore(w.log, Started(Init));
    AllowedInside(w);
    w' := OneMoreOpen(evs, w, Init);
  }

  /** A codec probe that redirects, and the mixer of the next file. */
  lemma RedirectedMixer() returns (evs: seq<Event>)
    ensures Documents(evs + [Redirect] + [Opening(AudioHal)] + [Opening(Mixer)])
    ensures Run(evs + [Redirect] + [Opening(AudioHal)] + [Opening(Mixer)]).Some?
    ensures Run(evs + [Redirect] + [Opening(AudioHal)] + [Opening(Mixer)]).value.p.mixer
  {
    var w;
    evs, w := ProbeDocument();
    RedirectKeepsInv(w);
    OneMore(evs, w, Redirect);
    var w1 := OneMoreOpen(evs + [Redirect], Redirected(w), AudioHal);
    var w2 := OneMoreOpen(evs + [Redirect] + [Opening(AudioHal)], w1, Mixer);
    NestingOfRun(evs + [Redirect] + [Opening(AudioHal)] + [Opening(Mixer)]);
  }

  lemma ProbeDocument() returns (evs: seq<Event>, w: World)
    ensures Run(evs) == Some(w) && Inv(w) && MayRedirect(w)
  {
    BeginInv();
    w := OneMoreOpen([], Begin(), AudioHal);
    evs := [] + [Opening(AudioHal)];
    w := ProbeInRoot(evs, w);
    evs := evs + [Opening(CodecProbe)] + [Close];
  }

  lemma ProbeInRoot(evs: seq<Event>, w: World) returns (w': World)
    requires Run(evs) == Some(w) && Inv(w) && w.depth == 1 && !w.closed && w.p.error == 0
    requires !w.p.mixer && !w.p.probeDefined
    ensures Run(evs + [Opening(CodecProbe)] + [Close]) == Some(w') && Inv(w') && MayRedirect(w')
  {
    var w1 := OneMoreOpen(evs, w, CodecProbe);
    w' := OneMoreClose(evs + [Opening(CodecProbe)], w1);
  }

  /** Such a document: initial settings, then a stream with a case and no device path in between. */
  lemma CaseControlGoesToInit() returns (evs: seq<Event>)
    ensures Documents(evs) && Run(evs).Some? && Inv(Run(evs).value)
    ensures var w := Run(evs).value;
      w.p.error == 0 && w.p.index > 0 && ElemAt(w.p, w.p.index) == Case && CtlTarget(w.p.current) == INIT_PATH
  {
    var w;
    evs, w := InitDocument();
    w := CloseBoth(evs, w);
    evs := evs + [Close] + [Close];
    w := StreamCase(evs, w);
    evs := evs + [Opening(Stream)] + [Opening(UseCase)] + [Opening(Case)];
    NestingOfRun(evs);
    CaseNotInPath(w);
  }

  lemma CloseBoth(evs: seq<Event>, w: World) returns (w': World)
    requires Run(evs) == Some(w) && Inv(w) && w.depth == 3 && w.p.error == 0 && InitPending(w.log)
    requires ElemAt(w.p, 3) == Init && ElemAt(w.p, 2) == Mixer && w.p.mixer
    ensures Run(evs + [Close] + [Close]) == Some(w') && Inv(w') && !w'.closed && w'.p.error == 0
    ensures w'.depth == 1 && w'.p.mixer && InitPending(w'.log)
  {
    LogMore(w.log, Finished(Init));
    var w1 := OneMoreClose(evs, w);
    LogMore(w1.log, Finished(Mixer));
    w' := OneMoreClose(evs + [Close], w1);
  }

  lemma StreamCase(evs: seq<Event>, w: World) returns (w': World)
    requires Run(evs) == Some(w) && Inv(w) && w.depth == 1 && !w.closed && w.p.error == 0 && w.p.mixer && InitPending(w.log)
    ensures Run(evs + [Opening(Stream)] + [Opening(UseCase)] + [Opening(Case)]) == Some(w')
    ensures Inv(w') && w'.p.error == 0 && w'.p.index > 0 && ElemAt(w'.p, w'.p.index) == Case && InitPending(w'.log)
  {
    var w1 := OneMoreOpen(evs, w, Stream);
    LogMore(w.log, Started(Stream));
    w' := CaseInStream(evs + [Opening(Stream)], w1);
  }

  lemma CaseInStream(evs: seq<Event>, w: World) returns (w': World)
    requires Run(evs) == Some(w) && Inv(w) && w.depth == 2 && !w.closed && w.p.error == 0 && InitPending(w.log)
    requires ElemAt(w.p, 2) == Stream
    ensures Run(evs + [Opening(UseCase)] + [Opening(Case)]) == Some(w')
    ensures Inv(w') && w'.p.error == 0 && w'.p.index > 0 && ElemAt(w'.p, w'.p.index) == Case && InitPending(w'.log)
  {
    AllowedInside(w);
    var w1 := OneMoreOpen(evs, w, UseCase);
    LogMore(w.log, Started(UseCase));
    AllowedInside(w1);
    w' := OneMoreOpen(evs + [Opening(UseCase)], w1, Case);
    LogMore(w1.log, Started(Case));
  }

  lemma {:induction false} NestingOfRun(evs: seq<Event>)
    requires Run(evs).Some?
    ensures Nesting(evs) == Some((Run(evs).value.depth, Run(evs).value.closed)) && RedirectsOk(evs)
  {
    if evs != [] {
      NestingOfRun(evs[..|evs| - 1]);
      StepNesting(Run(evs[..|evs| - 1]).value, evs[|evs| - 1]);
    }
  }
}
