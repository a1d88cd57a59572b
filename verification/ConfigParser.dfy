/**
 The table-driven parser of the audio configuration file (configmgr/audio_config.c): a fixed stack of
 open elements, each with the set of elements allowed inside it, and the current object of every kind.
 */
module ConfigParser {
  import opened Basics

  const MAX_PARSE_DEPTH := 6
  const EINVAL := -22

  datatype Elem =
    | Ctl | Path | Device | Stream | Enable | Disable | Case | UseCase | StreamCtl | Init | Mixer
    | AudioHal | CodecProbe | CodecCase

  /** The elements in the order of the table. */
  const ELEMS: seq<Elem> := [Ctl, Path, Device, Stream, Enable, Disable, Case, UseCase, StreamCtl, Init,
                             Mixer, AudioHal, CodecProbe, CodecCase]

  function Name(e: Elem): string {
    match e
    case Ctl => "ctl"
    case Path => "path"
    case Device => "device"
    case Stream => "stream"
    case Enable => "enable"
    case Disable => "disable"
    case Case => "case"
    case UseCase => "usecase"
    case StreamCtl => "ctl"
    case Init => "init"
    case Mixer => "mixer"
    case AudioHal => "audiohal"
    case CodecProbe => "codec_probe"
    case CodecCase => "case"
  }

  /** The table's sub-elements; a successful `<mixer>` replaces those of `<audiohal>`. */
  function ValidSub(e: Elem): set<Elem> {
    match e
    case Path => {Ctl}
    case Device => {Path}
    case Stream => {StreamCtl, Enable, Disable, UseCase}
    case Case => {Ctl}
    case UseCase => {Case}
    case Init => {Ctl}
    case Mixer => {Init}
    case AudioHal => {Mixer, CodecProbe}
    case CodecProbe => {CodecCase}
    case _ => {}
  }

  const AFTER_MIXER: set<Elem> := {Device, Stream}

  datatype Entry = Entry(elem: Elem, valid: set<Elem>)

  /** The current object of each kind; 0 is the null pointer. */
  datatype Current = Current(device: nat, stream: nat, path: nat, usecase: nat, scase: nat, probe: nat)

  const INIT_PATH: nat := 1
  const INIT_PROBE: nat := 1

  /** `next` is the next object an allocation gives. */
  datatype Parser = Parser(
    index: nat, entry: seq<Entry>, error: int, mixer: bool, current: Current, probeDefined: bool, next: nat)

  /** The first element of the table that is allowed and has this name. */
  function Find(valid: set<Elem>, name: string, i: nat): (r: Option<Elem>)
    requires i <= |ELEMS|
    ensures r.Some? ==> r.value in valid && Name(r.value) == name
    decreases |ELEMS| - i
  {
    if i == |ELEMS| then None
    else if ELEMS[i] in valid && name == Name(ELEMS[i]) then Some(ELEMS[i])
    else Find(valid, name, i + 1)
  }

  /** The element's start handler ran and returned 0. */
  function Handled(p: Parser, e: Elem): Parser
    requires 0 < p.index < |p.entry|
  {
    var c := p.current;
    match e
    case Mixer =>
      var parent := p.entry[p.index - 1];
      p.(mixer := true, entry := p.entry[p.index - 1 := parent.(valid := AFTER_MIXER)])
    case Device => p.(current := c.(device := p.next), next := p.next + 1)
    case Stream => p.(current := c.(stream := p.next), next := p.next + 1)
    case Path => p.(current := c.(path := p.next), next := p.next + 1)
    case UseCase => p.(current := c.(usecase := p.next), next := p.next + 1)
    case Case => p.(current := c.(scase := p.next), next := p.next + 1)
    case Init => p.(current := c.(path := INIT_PATH))
    case CodecProbe => p.(current := c.(probe := INIT_PROBE), probeDefined := true)
    case _ => p
  }

  /** What a start tag meets: the checks on its attributes and the handler's own outcome. */
  datatype Tag = Tag(name: string, attribsOk: bool, outcome: int)

  /** The handler's result; a second `<codec_probe>` is always refused and `<audiohal>` has no handler. */
  function Outcome(p: Parser, e: Elem, t: Tag): int {
    if !t.attribsOk || (e == CodecProbe && p.probeDefined) then EINVAL else if e == AudioHal then 0 else t.outcome
  }

  /** The element a start tag is accepted as. */
  function Accepted(p: Parser, name: string): Option<Elem>
    requires p.index < |p.entry|
  {
    if p.error != 0 then None else Find(p.entry[p.index].valid, name, 0)
  }

  function Pushed(p: Parser, e: Elem): Parser
    requires p.index + 1 < |p.entry|
  {
    p.(index := p.index + 1, entry := p.entry[p.index + 1 := Entry(e, ValidSub(e))])
  }

  /** A start tag that was found to be the element `e`, or none that is allowed. */
  function StartAs(p: Parser, e: Option<Elem>, t: Tag): Parser
    requires p.index < |p.entry| && (e.Some? ==> p.index + 1 < |p.entry|)
  {
    if e.None? then p.(error := EINVAL)
    else
      var p' := Pushed(p, e.value);
      if Outcome(p, e.value, t) != 0 then p'.(error := Outcome(p, e.value, t)) else Handled(p', e.value)
  }

  /** parse_section_start. */
  function Start(p: Parser, t: Tag): Parser
    requires p.index < |p.entry| && (Accepted(p, t.name).Some? ==> p.index + 1 < |p.entry|)
  {
    if p.error != 0 then p else StartAs(p, Accepted(p, t.name), t)
  }

  /** The element's end handler ran. */
  function Ended(c: Current, e: Elem): Current {
    match e
    case Path => c.(path := 0)
    case Case => c.(scase := 0)
    case CodecProbe => c.(probe := 0)
    case _ => c
  }

  /** parse_section_end. */
  function End(p: Parser): Parser
    requires 0 < p.index < |p.entry|
  {
    if p.error != 0 then p
    else p.(current := Ended(p.current, p.entry[p.index].elem), index := p.index - 1)
  }

  /** The parser in its own form; the handlers' outcomes come with each tag. */
  class ConfigFileParser {
    var index: nat
    const entry: array<Entry>
    var error: int
    var mixer: bool
    var current: Current
    var probeDefined: bool
    var next: nat

    ghost function View(): Parser
      reads this, entry
    {
      Parser(index, entry[..], error, mixer, current, probeDefined, next)
    }

    /** do_parse: the first element must be `<audiohal>`. */
    constructor ()
      ensures fresh(entry) && entry.Length == MAX_PARSE_DEPTH
      ensures View() == Fresh()
    {
      entry := new Entry[MAX_PARSE_DEPTH](_ => Entry(AudioHal, {AudioHal}));
      index, error, mixer, current, probeDefined, next := 0, 0, false, Current(0, 0, 0, 0, 0, 0), false, 2;
      new;
      assert entry[..] == Fresh().entry;
    }

    method FindElement(valid: set<Elem>, name: string) returns (i: nat)
      ensures i <= |ELEMS|
      ensures Find(valid, name, 0) == if i == |ELEMS| then None else Some(ELEMS[i])
    {
      i := 0;
      while i < |ELEMS|
        invariant i <= |ELEMS| && Find(valid, name, 0) == Find(valid, name, i)
      {
        if ELEMS[i] in valid && name == Name(ELEMS[i]) {
          break;
        }
        i := i + 1;
      }
    }

    method RunStartHandler(e: Elem, outcome: int)
      requires 0 < index < entry.Length
      modifies this, entry
      ensures View() == if outcome != 0 then old(View()).(error := outcome) else Handled(old(View()), e).(error := 0)
    {
      error := outcome;
      if outcome != 0 {
        return;
      }
      match e {
        case Mixer =>
          mixer := true;
          entry[index - 1] := entry[index - 1].(valid := AFTER_MIXER);
        case Device => current, next := current.(device := next), next + 1;
        case Stream => current, next := current.(stream := next), next + 1;
        case Path => current, next := current.(path := next), next + 1;
        case UseCase => current, next := current.(usecase := next), next + 1;
        case Case => current, next := current.(scase := next), next + 1;
        case Init => current := current.(path := INIT_PATH);
        case CodecProbe => current, probeDefined := current.(probe := INIT_PROBE), true;
        case _ =>
      }
    }

    method Push(e: Elem)
      requires index + 1 < entry.Length
      modifies this, entry
      ensures View() == Pushed(old(View()), e)
    {
      entry[index + 1] := Entry(e, ValidSub(e));
      index := index + 1;
      assert entry[..] == old(entry[..])[index := Entry(e, ValidSub(e))];
    }

    /** The element is on the stack: its attributes are checked and its handler runs. */
    method Enter(e: Elem, t: Tag)
      requires index + 1 < entry.Length && error == 0
      modifies this, entry
      ensures View() == StartAs(old(View()), Some(e), t)
    {
      Push(e);
      if !t.attribsOk || (e == CodecProbe && probeDefined) {
        error := EINVAL;
      } else if e != AudioHal {
        RunStartHandler(e, t.outcome);
      }
    }

    /** The write to the stack stays in bounds for every parser state that events can lead to. */
    method ParseSectionStart(t: Tag)
      requires entry.Length == MAX_PARSE_DEPTH && index < entry.Length
      requires Accepted(View(), t.name).Some? ==> index + 1 < entry.Length
      modifies this, entry
      ensures View() == Start(old(View()), t)
    {
      if error != 0 {
        return;
      }
      var i := FindElement(entry[index].valid, t.name);
      if i == |ELEMS| || index >= MAX_PARSE_DEPTH {
        error := EINVAL;
        return;
      }
      assert Accepted(View(), t.name) == Some(ELEMS[i]);
      Enter(ELEMS[i], t);
    }

    method ParseSectionEnd()
      requires 0 < index < entry.Length
      modifies this
      ensures View() == End(old(View()))
    {
      if error != 0 {
        return;
      }
      match entry[index].elem {
        case Path => current := current.(path := 0);
        case Case => current := current.(scase := 0);
        case CodecProbe => current := current.(probe := 0);
        case _ =>
      }
      index := index - 1;
    }
  }

  function Fresh(): Parser {
    Parser(0, seq(MAX_PARSE_DEPTH, _ => Entry(AudioHal, {AudioHal})), 0, false, Current(0, 0, 0, 0, 0, 0), false, 2)
  }
}
