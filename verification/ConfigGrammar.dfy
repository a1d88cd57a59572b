/**
 The configuration language that the parser of configmgr/audio_config.c accepts, in terms of tag names alone:
 which names may be opened inside which, and what each of them means where it stands.
 */
module ConfigGrammar {
  import opened Basics
  import opened ConfigParser
  import opened ConfigParserRun

  /** The names of the open tags, outermost first. */
  function OpenTags(evs: seq<Event>): seq<string> {
    if evs == [] then []
    else
      var before := OpenTags(evs[..|evs| - 1]);
      match evs[|evs| - 1]
      case Open(tag) => before + [tag.name]
      case Close => if before == [] then [] else before[..|before| - 1]
      case Redirect => []
  }

  /** The names allowed inside the open tags, once a mixer was opened or before. */
  function Allowed(tags: seq<string>, mixer: bool): set<string> {
    if |tags| == 0 then {"audiohal"}
    else if |tags| == 1 then if mixer then {"device", "stream"} else {"mixer", "codec_probe"}
    else if |tags| == 2 then
      if tags[1] == "mixer" then {"init"}
      else if tags[1] == "codec_probe" then {"case"}
      else if tags[1] == "device" then {"path"}
      else if tags[1] == "stream" then {"ctl", "enable", "disable", "usecase"}
      else {}
    else if |tags| == 3 then
      if tags[2] == "init" || tags[2] == "path" then {"ctl"}
      else if tags[2] == "usecase" then {"case"}
      else {}
    else if |tags| == 4 && tags[3] == "case" then {"ctl"}
    else {}
  }

  /** What a tag means below the others: a `<ctl>` of a stream names a volume control, any other one a mixer
      setting; a `<case>` of a codec probe names a file, that of a use case mixer settings. */
  function Meaning(tags: seq<string>, name: string): Elem {
    if name == "audiohal" then AudioHal
    else if name == "mixer" then Mixer
    else if name == "init" then Init
    else if name == "codec_probe" then CodecProbe
    else if name == "device" then Device
    else if name == "path" then Path
    else if name == "stream" then Stream
    else if name == "enable" then Enable
    else if name == "disable" then Disable
    else if name == "usecase" then UseCase
    else if name == "case" then if |tags| == 2 then CodecCase else Case
    else if |tags| == 2 then StreamCtl
    else Ctl
  }

  /** The parser's stack holds what the open tags mean. */
  ghost predicate Mirrors(p: Parser, tags: seq<string>) {
    && |p.entry| == MAX_PARSE_DEPTH && |tags| == p.index < MAX_PARSE_DEPTH
    && forall i :: 1 <= i <= p.index ==> ElemAt(p, i) == Meaning(tags[..i - 1], tags[i - 1]) && Name(ElemAt(p, i)) == tags[i - 1]
  }

  /** The depth at which each element stands. */
  predicate AtLevel(e: Elem, i: nat) {
    match e
    case AudioHal => i == 1
    case Mixer => i == 2
    case CodecProbe => i == 2
    case Device => i == 2
    case Stream => i == 2
    case Case => i == 4
    case Ctl => i == 4 || i == 5
    case _ => i == 3
  }

  lemma {:induction false} Levels(p: Parser, i: nat)
    requires Nested(p) && 1 <= i <= p.index
    ensures AtLevel(ElemAt(p, i), i)
  {
    if i > 1 {
      Levels(p, i - 1);
      assert Inside(ElemAt(p, i - 1), ElemAt(p, i));
    }
  }

  /** What the innermost open element allows, by its table entry. */
  lemma Innermost(w: World)
    requires Inv(w) && w.p.error == 0
    ensures w.p.entry[w.p.index].valid ==
      if w.p.index == 0 then {AudioHal}
      else if w.p.index == 1 then if w.p.mixer then AFTER_MIXER else ValidSub(AudioHal)
      else ValidSub(ElemAt(w.p, w.p.index))
    ensures w.p.index > 0 ==> AtLevel(ElemAt(w.p, w.p.index), w.p.index)
  {
    if w.p.index > 0 {
      Levels(w.p, w.p.index);
    }
  }

  /** The sets of names and of elements agree, name by name. */
  ghost predicate Agree(valid: set<Elem>, names: set<string>, tags: seq<string>) {
    && (forall e :: e in valid ==> Name(e) in names && Meaning(tags, Name(e)) == e)
    && (forall n :: n in names ==> Meaning(tags, n) in valid && Name(Meaning(tags, n)) == n)
  }

  lemma RootAgrees(tags: seq<string>, mixer: bool)
    requires |tags| <= 1
    ensures Agree(if |tags| == 0 then {AudioHal} else if mixer then AFTER_MIXER else ValidSub(AudioHal), Allowed(tags, mixer), tags)
  {
  }

  lemma SecondAgrees(e: Elem, tags: seq<string>, mixer: bool)
    requires |tags| == 2 && AtLevel(e, 2) && Name(e) == tags[1]
    ensures Agree(ValidSub(e), Allowed(tags, mixer), tags)
  {
    if e == Stream {
      StreamAgrees(tags, mixer);
    }
  }

  lemma StreamAgrees(tags: seq<string>, mixer: bool)
    requires |tags| == 2 && tags[1] == "stream"
    ensures Agree(ValidSub(Stream), Allowed(tags, mixer), tags)
  {
    assert Allowed(tags, mixer) == {"ctl", "enable", "disable", "usecase"};
  }

  lemma DeepAgrees(e: Elem, tags: seq<string>, mixer: bool)
    requires |tags| >= 3 && AtLevel(e, |tags|) && Name(e) == tags[|tags| - 1]
    ensures Agree(ValidSub(e), Allowed(tags, mixer), tags)
  {
  }

  lemma TagsAgree(w: World, tags: seq<string>)
    requires Inv(w) && w.p.error == 0 && Mirrors(w.p, tags)
    ensures Agree(w.p.entry[w.p.index].valid, Allowed(tags, w.p.mixer), tags)
  {
    Innermost(w);
    if |tags| <= 1 {
      RootAgrees(tags, w.p.mixer);
    } else if |tags| == 2 {
      SecondAgrees(ElemAt(w.p, 2), tags, w.p.mixer);
    } else {
      DeepAgrees(ElemAt(w.p, w.p.index), tags, w.p.mixer);
    }
  }

  /** A start tag is accepted exactly if its name is allowed, and as what it means. */
  lemma AcceptedIff(w: World, tags: seq<string>, name: string)
    requires Inv(w) && w.p.error == 0 && Mirrors(w.p, tags)
    ensures Accepted(w.p, name) == if name in Allowed(tags, w.p.mixer) then Some(Meaning(tags, name)) else None
  {
    TagsAgree(w, tags);
    if name in Allowed(tags, w.p.mixer) {
      AllowedIsFound(w, Meaning(tags, name));
    }
  }

  lemma MirrorsMore(p: Parser, tags: seq<string>, name: string, p': Parser)
    requires Mirrors(p, tags) && |p'.entry| == MAX_PARSE_DEPTH && p'.index == p.index + 1 < MAX_PARSE_DEPTH
    requires ElemAt(p', p'.index) == Meaning(tags, name) && Name(Meaning(tags, name)) == name
    requires forall i :: 0 <= i <= p.index ==> ElemAt(p', i) == ElemAt(p, i)
    ensures Mirrors(p', tags + [name])
  {
    var more := tags + [name];
    forall i | 1 <= i <= p'.index
      ensures ElemAt(p', i) == Meaning(more[..i - 1], more[i - 1]) && Name(ElemAt(p', i)) == more[i - 1]
    {
      if i < p'.index {
        assert more[..i - 1] == tags[..i - 1];
      } else {
        assert more[..i - 1] == tags;
      }
    }
  }

  lemma MirrorsLess(p: Parser, tags: seq<string>)
    requires Mirrors(p, tags) && p.index > 0 && p.error == 0
    ensures Mirrors(End(p), tags[..|tags| - 1])
  {
    var less, p' := tags[..|tags| - 1], End(p);
    forall i | 1 <= i <= p'.index
      ensures ElemAt(p', i) == Meaning(less[..i - 1], less[i - 1]) && Name(ElemAt(p', i)) == less[i - 1]
    {
      assert ElemAt(p', i) == ElemAt(p, i) && less[..i - 1] == tags[..i - 1];
    }
  }

  /** A start tag that leaves no error was allowed, and is on the stack with its meaning. */
  lemma OpenMirrors(w: World, tags: seq<string>, tag: Tag)
    requires Inv(w) && w.p.error == 0 && !w.closed && Mirrors(w.p, tags) && Enabled(w, Open(tag))
    requires Apply(w, Open(tag)).p.error == 0
    ensures tag.name in Allowed(tags, w.p.mixer) && Mirrors(Apply(w, Open(tag)).p, tags + [tag.name])
  {
    AcceptedIff(w, tags, tag.name);
    var e := Meaning(tags, tag.name);
    TagsAgree(w, tags);
    AllowedBelow(w, e);
    PushNested(w.p, e);
    OpenedWorld(w, e, tag);
    HandledElems(w.p, e);
    MirrorsMore(w.p, tags, tag.name, Apply(w, Open(tag)).p);
  }

  lemma RedirectMirrors(w: World)
    requires Inv(w) && MayRedirect(w)
    ensures Mirrors(Redirected(w).p, [])
  {
  }

  // ---------------------------------------------------------------------------------------------
  // The documents without an error
  // ---------------------------------------------------------------------------------------------

  /** A mixer was opened, in this file or an earlier one. */
  predicate MixerSeen(evs: seq<Event>) {
    evs != [] &&
    (var last := evs[|evs| - 1];
     (last.Open? && last.tag.name == "mixer") || MixerSeen(evs[..|evs| - 1]))
  }

  /** A codec probe was opened in this file. */
  predicate ProbeSeen(evs: seq<Event>) {
    evs != [] &&
    (var last := evs[|evs| - 1];
     (last.Open? && last.tag.name == "codec_probe") || (!last.Redirect? && ProbeSeen(evs[..|evs| - 1])))
  }

  /** What is wrong with a start tag behind the others: its place, its attributes, a second codec probe, or
      what its handler reports. */
  function TagError(evs: seq<Event>, tag: Tag): int {
    if tag.name !in Allowed(OpenTags(evs), MixerSeen(evs)) || !tag.attribsOk then EINVAL
    else if tag.name == "codec_probe" && ProbeSeen(evs) then EINVAL
    else if tag.name == "audiohal" then 0
    else tag.outcome
  }

  /** The first error of the documents, 0 if there is none. */
  function FirstError(evs: seq<Event>): int {
    if evs == [] then 0
    else
      var before, last := evs[..|evs| - 1], evs[|evs| - 1];
      if FirstError(before) != 0 then FirstError(before) else if last.Open? then TagError(before, last.tag) else 0
  }

  /** The parser has met the first error of the documents; without one, its stack and flags are as the tags say. */
  ghost predicate Reads(w: World, evs: seq<Event>) {
    && w.p.error == FirstError(evs)
    && (w.p.error == 0 ==>
          Mirrors(w.p, OpenTags(evs)) && w.p.mixer == MixerSeen(evs) && w.p.probeDefined == ProbeSeen(evs))
  }

  lemma OpenError(w: World, tag: Tag)
    requires Inv(w) && w.p.error == 0 && !w.closed && Enabled(w, Open(tag))
    ensures Apply(w, Open(tag)).p.error ==
      if Accepted(w.p, tag.name).None? then EINVAL else Outcome(w.p, Accepted(w.p, tag.name).value, tag)
  {
    if Accepted(w.p, tag.name).Some? && Outcome(w.p, Accepted(w.p, tag.name).value, tag) == 0 {
      OpenedWorld(w, Accepted(w.p, tag.name).value, tag);
    }
  }

  lemma OpenReads(w: World, evs: seq<Event>, tag: Tag)
    requires Inv(w) && w.p.error == 0 && !w.closed && Reads(w, evs) && Enabled(w, Open(tag))
    ensures Apply(w, Open(tag)).p.error == TagError(evs, tag)
    ensures TagError(evs, tag) == 0 ==> tag.name in Allowed(OpenTags(evs), w.p.mixer)
    ensures TagError(evs, tag) == 0 ==> Outcome(w.p, Meaning(OpenTags(evs), tag.name), tag) == 0
  {
    var tags := OpenTags(evs);
    OpenError(w, tag);
    AcceptedIff(w, tags, tag.name);
    TagsAgree(w, tags);
    if tag.name in Allowed(tags, w.p.mixer) {
      OutcomeIs(w.p, Meaning(tags, tag.name), tag, evs);
    }
  }

  lemma OpenGoesOn(w: World, evs: seq<Event>, tag: Tag)
    requires Inv(w) && w.p.error == 0 && !w.closed && Reads(w, evs) && Enabled(w, Open(tag)) && TagError(evs, tag) == 0
    ensures var p' := Apply(w, Open(tag)).p;
      && Mirrors(p', OpenTags(evs) + [tag.name])
      && p'.mixer == (w.p.mixer || tag.name == "mixer")
      && p'.probeDefined == (w.p.probeDefined || tag.name == "codec_probe")
  {
    OpenReads(w, evs, tag);
    AcceptedIff(w, OpenTags(evs), tag.name);
    TagsAgree(w, OpenTags(evs));
    OpenMirrors(w, OpenTags(evs), tag);
    OpenFlags(w, Meaning(OpenTags(evs), tag.name), tag);
  }

  lemma OutcomeIs(p: Parser, e: Elem, tag: Tag, evs: seq<Event>)
    requires Name(e) == tag.name && p.probeDefined == ProbeSeen(evs) && tag.name in Allowed(OpenTags(evs), MixerSeen(evs))
    ensures Outcome(p, e, tag) == TagError(evs, tag)
  {
    NamedProbe(e);
  }

  /** Only one element has each of these names. */
  lemma NamedProbe(e: Elem)
    ensures Name(e) == "codec_probe" <==> e == CodecProbe
    ensures Name(e) == "mixer" <==> e == Mixer
    ensures Name(e) == "audiohal" <==> e == AudioHal
  {
    assert forall x: Elem :: |Name(x)| == |"mixer"| && Name(x)[0] == 'm' ==> x == Mixer;
  }

  lemma OpenFlags(w: World, e: Elem, tag: Tag)
    requires Inv(w) && w.p.error == 0 && !w.closed && e in w.p.entry[w.p.index].valid && Outcome(w.p, e, tag) == 0
    requires Accepted(w.p, tag.name) == Some(e) && Name(e) == tag.name && Enabled(w, Open(tag))
    ensures var p' := Apply(w, Open(tag)).p;
      p'.mixer == (w.p.mixer || tag.name == "mixer") && p'.probeDefined == (w.p.probeDefined || tag.name == "codec_probe")
  {
    AllowedBelow(w, e);
    PushNested(w.p, e);
    OpenedWorld(w, e, tag);
    HandledElems(w.p, e);
    HandledProbe(Pushed(w.p, e), e);
    NamedProbe(e);
  }

  lemma TagReads(w: World, before: seq<Event>, tag: Tag, evs: seq<Event>)
    requires Inv(w) && Legal(w, Open(tag)) && Enabled(w, Open(tag)) && Reads(w, before) && evs == before + [Open(tag)]
    ensures Reads(Apply(w, Open(tag)), evs)
  {
    assert evs[..|evs| - 1] == before;
    if w.p.error == 0 {
      OpenReads(w, before, tag);
      if TagError(before, tag) == 0 {
        OpenGoesOn(w, before, tag);
      }
    }
  }

  lemma CloseReads(w: World, before: seq<Event>, evs: seq<Event>)
    requires Inv(w) && Legal(w, Close) && Enabled(w, Close) && Reads(w, before) && evs == before + [Close]
    ensures Reads(Apply(w, Close), evs)
  {
    assert evs[..|evs| - 1] == before;
    if w.p.error == 0 {
      MirrorsLess(w.p, OpenTags(before));
    }
  }

  lemma RedirectReads(w: World, before: seq<Event>, evs: seq<Event>)
    requires Inv(w) && Legal(w, Redirect) && Enabled(w, Redirect) && Reads(w, before) && evs == before + [Redirect]
    ensures Reads(Apply(w, Redirect), evs)
  {
    assert evs[..|evs| - 1] == before;
    RedirectMirrors(w);
  }

  lemma LastReads(before: seq<Event>, ev: Event, evs: seq<Event>)
    requires evs == before + [ev] && Run(before).Some? && Legal(Run(before).value, ev) && Enabled(Run(before).value, ev)
    requires Inv(Run(before).value) && Reads(Run(before).value, before)
    ensures Run(evs).Some? && Reads(Run(evs).value, evs)
  {
    assert evs[..|evs| - 1] == before;
    match ev
    case Open(tag) => TagReads(Run(before).value, before, tag, evs);
    case Close => CloseReads(Run(before).value, before, evs);
    case Redirect => RedirectReads(Run(before).value, before, evs);
  }

  /** On every prefix of every chain of documents the parser's error is the first one of the documents, so it
      accepts exactly those whose tags all stand where they are allowed, with good attributes, one codec probe
      a file at most, and handlers that succeed. As long as there is none, the stack holds what the open tags
      mean, and the next start tag is taken as what it means there. */
  lemma {:induction false} RunReadsTags(evs: seq<Event>, name: string)
    requires Documents(evs)
    ensures Run(evs).Some? && Inv(Run(evs).value) && Reads(Run(evs).value, evs)
    ensures var w, tags := Run(evs).value, OpenTags(evs);
      w.p.error == 0 ==>
        Accepted(w.p, name) == if name in Allowed(tags, MixerSeen(evs)) then Some(Meaning(tags, name)) else None
  {
    RunInv(evs);
    if evs != [] {
      RunReadsTags(evs[..|evs| - 1], name);
      LastReads(evs[..|evs| - 1], evs[|evs| - 1], evs);
    }
    if Run(evs).value.p.error == 0 {
      AcceptedIff(Run(evs).value, OpenTags(evs), name);
    }
  }
}
