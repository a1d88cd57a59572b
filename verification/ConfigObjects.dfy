/**
 The objects that the parser of configmgr/audio_config.c makes: every section gets one of its own, and those of
 codec probes and cases are current exactly while the section is open.
 */
module ConfigObjects {
  import opened Basics
  import opened ConfigParser
  import opened ConfigParserRun
  import opened ConfigGrammar

  /** Elements whose start handler allocates an object. */
  predicate Allocates(e: Elem) {
    e == Device || e == Stream || e == Path || e == UseCase || e == Case
  }

  /** A step allocates in order and never takes an object back. */
  ghost predicate AllocatesNext(w: World, ev: Event, w': World) {
    && |w.p.entry| == |w'.p.entry| == |w'.made| == MAX_PARSE_DEPTH && w'.p.index < MAX_PARSE_DEPTH && w.p.next <= w'.p.next
    && (ev.Open? && w'.p.error == 0 && Allocates(ElemAt(w'.p, w'.p.index)) ==>
          w'.made[w'.p.index] == w.p.next < w'.p.next)
  }

  lemma HandlerAllocates(p: Parser, e: Elem)
    requires 0 < p.index < |p.entry|
    ensures p.next <= Handled(p, e).next
    ensures Allocates(e) ==> Owner(Handled(p, e).current, e) == p.next < Handled(p, e).next
  {
  }

  lemma AcceptedAllocates(w: World, e: Elem, tag: Tag)
    requires Inv(w) && w.p.error == 0 && !w.closed && e in w.p.entry[w.p.index].valid && Outcome(w.p, e, tag) == 0
    ensures w.p.index + 1 < MAX_PARSE_DEPTH
    ensures AllocatesNext(w, Open(tag), OpenedAs(w, Some(e), tag).(depth := w.depth + 1))
  {
    AllowedBelow(w, e);
    PushNested(w.p, e);
    OpenedWorld(w, e, tag);
    HandledElems(w.p, e);
    HandlerAllocates(Pushed(w.p, e), e);
  }

  lemma OpenAllocates(w: World, tag: Tag)
    requires Inv(w) && Legal(w, Open(tag)) && Enabled(w, Open(tag))
    ensures AllocatesNext(w, Open(tag), Apply(w, Open(tag)))
  {
    if w.p.error == 0 && Accepted(w.p, tag.name).Some? && Outcome(w.p, Accepted(w.p, tag.name).value, tag) == 0 {
      AcceptedAllocates(w, Accepted(w.p, tag.name).value, tag);
    }
  }

  lemma OtherAllocates(w: World, ev: Event)
    requires Inv(w) && Legal(w, ev) && Enabled(w, ev) && !ev.Open?
    ensures AllocatesNext(w, ev, Apply(w, ev))
  {
  }

  lemma StepAllocates(before: seq<Event>, ev: Event, evs: seq<Event>)
    requires evs == before + [ev] && Documents(evs)
    ensures Run(before).Some? && Run(evs).Some? && 2 <= Run(before).value.p.next
    ensures AllocatesNext(Run(before).value, ev, Run(evs).value)
  {
    assert evs[..|evs| - 1] == before;
    RunInv(before);
    RunInv(evs);
    NextIsFree(before);
    var w := Run(before).value;
    if ev.Open? {
      OpenAllocates(w, ev.tag);
    } else {
      OtherAllocates(w, ev);
    }
  }

  lemma {:induction false} NextIsFree(evs: seq<Event>)
    requires Documents(evs) && Run(evs).Some?
    ensures Run(evs).value.p.next > INIT_PATH
  {
    if evs != [] {
      RunInv(evs[..|evs| - 1]);
      NextIsFree(evs[..|evs| - 1]);
      var w, ev := Run(evs[..|evs| - 1]).value, evs[|evs| - 1];
      if ev.Open? {
        OpenAllocates(w, ev.tag);
      } else {
        OtherAllocates(w, ev);
      }
    }
  }

  lemma {:induction false} DocumentsBefore(evs: seq<Event>, n: nat)
    requires Documents(evs) && n <= |evs|
    ensures Documents(evs[..n])
  {
    if n < |evs| {
      DocumentsBefore(evs[..|evs| - 1], n);
      assert evs[..|evs| - 1][..n] == evs[..n];
    } else {
      assert evs[..n] == evs;
    }
  }

  /** Start tag `i` made the object `o`. */
  ghost predicate Makes(evs: seq<Event>, i: nat, o: nat) {
    i < |evs| && evs[i].Open? && Run(evs[..i + 1]).Some? && Tops(Run(evs[..i + 1]).value, o)
  }

  /** The innermost open element has the allocated object `o`. */
  ghost predicate Tops(w: World, o: nat) {
    && |w.p.entry| == |w.made| == MAX_PARSE_DEPTH && w.p.index < MAX_PARSE_DEPTH && w.p.error == 0
    && Allocates(ElemAt(w.p, w.p.index)) && w.made[w.p.index] == o
  }

  lemma MadeIsNext(evs: seq<Event>, i: nat, o: nat)
    requires Documents(evs) && Makes(evs, i, o)
    ensures Documents(evs[..i]) && Run(evs[..i]).Some? && INIT_PATH < o == Run(evs[..i]).value.p.next
    ensures o < Run(evs[..i + 1]).value.p.next
  {
    DocumentsBefore(evs, i);
    DocumentsBefore(evs, i + 1);
    assert evs[..i + 1] == evs[..i] + [evs[i]];
    StepAllocates(evs[..i], evs[i], evs[..i + 1]);
  }

  function NextOf(w: Option<World>): nat { if w.Some? then w.value.p.next else 0 }

  lemma NextGrows(evs: seq<Event>, n: nat, o: nat)
    requires Documents(evs) && n < |evs| && o < NextOf(Run(evs[..n]))
    ensures o < NextOf(Run(evs[..n + 1]))
  {
    DocumentsBefore(evs, n + 1);
    assert evs[..n + 1] == evs[..n] + [evs[n]];
    StepAllocates(evs[..n], evs[n], evs[..n + 1]);
  }

  lemma {:induction false} StaysBelow(evs: seq<Event>, i: nat, o: nat, n: nat)
    requires Documents(evs) && i <= n <= |evs| && o < NextOf(Run(evs[..i]))
    ensures o < NextOf(Run(evs[..n]))
    decreases n - i
  {
    if i < n {
      NextGrows(evs, i, o);
      StaysBelow(evs, i + 1, o, n);
    }
  }

  /** Every device, stream, path, use case and case gets an object that no other one has, in this file or an
      earlier one, and none of them is the initial settings or null. */
  lemma ObjectsAreOwn(evs: seq<Event>, i: nat, j: nat, a: nat, b: nat)
    requires Documents(evs) && Makes(evs, i, a) && Makes(evs, j, b) && i < j
    ensures INIT_PATH < a < b
  {
    MadeIsNext(evs, i, a);
    MadeIsNext(evs, j, b);
    StaysBelow(evs, i + 1, a, j);
  }

  // ---------------------------------------------------------------------------------------------
  // Current objects
  // ---------------------------------------------------------------------------------------------

  /** A codec probe, and a case, is open. */
  predicate ProbeOpen(p: Parser) { 2 <= p.index < |p.entry| && ElemAt(p, 2) == CodecProbe }

  predicate CaseOpen(p: Parser) { 4 <= p.index < |p.entry| && ElemAt(p, 4) == Case }

  ghost predicate CurrentIsOpen(w: World) {
    w.p.error == 0 ==> (w.p.current.probe != 0 <==> ProbeOpen(w.p)) && (w.p.current.scase != 0 <==> CaseOpen(w.p))
  }

  /** What a handler does to the two. */
  lemma HandlerCurrent(p: Parser, e: Elem)
    requires 0 < p.index < |p.entry| && p.next >= 2
    ensures var c := Handled(p, e).current;
      && (if e == CodecProbe then c.probe != 0 else c.probe == p.current.probe)
      && (if e == Case then c.scase != 0 else c.scase == p.current.scase)
  {
  }

  lemma AcceptedCurrent(w: World, e: Elem, tag: Tag)
    requires Inv(w) && w.p.error == 0 && !w.closed && e in w.p.entry[w.p.index].valid && Outcome(w.p, e, tag) == 0
    requires CurrentIsOpen(w)
    ensures w.p.index + 1 < MAX_PARSE_DEPTH && CurrentIsOpen(OpenedAs(w, Some(e), tag).(depth := w.depth + 1))
  {
    AllowedBelow(w, e);
    PushNested(w.p, e);
    OpenedWorld(w, e, tag);
    HandledElems(w.p, e);
    HandlerCurrent(Pushed(w.p, e), e);
    Levels(Handled(Pushed(w.p, e), e), w.p.index + 1);
  }

  lemma OpenCurrent(w: World, tag: Tag)
    requires Inv(w) && Legal(w, Open(tag)) && Enabled(w, Open(tag)) && CurrentIsOpen(w)
    ensures CurrentIsOpen(Apply(w, Open(tag)))
  {
    if w.p.error == 0 && Accepted(w.p, tag.name).Some? && Outcome(w.p, Accepted(w.p, tag.name).value, tag) == 0 {
      AcceptedCurrent(w, Accepted(w.p, tag.name).value, tag);
    }
  }

  lemma CloseCurrent(w: World)
    requires Inv(w) && Legal(w, Close) && Enabled(w, Close) && CurrentIsOpen(w)
    ensures CurrentIsOpen(Apply(w, Close))
  {
    if w.p.error == 0 {
      Levels(w.p, w.p.index);
    }
  }

  lemma RedirectCurrent(w: World)
    requires Inv(w) && Legal(w, Redirect) && Enabled(w, Redirect) && CurrentIsOpen(w)
    ensures CurrentIsOpen(Apply(w, Redirect))
  {
  }

  /** On every prefix of every chain of documents without an error, the current codec probe and the current case
      are null exactly while none is open. */
  lemma {:induction false} CurrentOnlyWhileOpen(evs: seq<Event>)
    requires Documents(evs)
    ensures Run(evs).Some? && CurrentIsOpen(Run(evs).value)
  {
    RunInv(evs);
    if evs != [] {
      var before, ev := evs[..|evs| - 1], evs[|evs| - 1];
      RunInv(before);
      CurrentOnlyWhileOpen(before);
      match ev
      case Open(tag) => OpenCurrent(Run(before).value, tag);
      case Close => CloseCurrent(Run(before).value);
      case Redirect => RedirectCurrent(Run(before).value);
    }
  }

  /** Outside cases, a control goes to the section it stands in: to the path's own object, or to the initial
      settings. */
  lemma ControlsStayInSection(evs: seq<Event>)
    requires Documents(evs)
    ensures Run(evs).Some? && Inv(Run(evs).value)
    ensures var w := Run(evs).value;
      w.p.error == 0 && w.p.index > 0 ==>
        && (ElemAt(w.p, w.p.index) == Path ==> CtlTarget(w.p.current) == w.made[w.p.index])
        && (ElemAt(w.p, w.p.index) == Init ==> CtlTarget(w.p.current) == INIT_PATH)
  {
    RunInv(evs);
    var w := Run(evs).value;
    if w.p.error == 0 && w.p.index > 0 {
      Levels(w.p, w.p.index);
      assert HasObject(Path) && HasObject(Init);
    }
  }
}
