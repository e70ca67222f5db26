/** The RichMedia cue point dictionary (Adobe Supplement to ISO 32000,
    ExtensionLevel 3): a PDF dictionary of type CuePoint that relates a cue
    point of the Flash content, matched by its Name or Time entry, to the
    action triggered when playback reaches it.

    The pure functions NewCuePoint, WithName, WithTime and WithAction say
    what each operation does to the dictionary's entries; the class CuePoint
    performs them in place and is proved against them. Run replays a
    sequence of setter calls, and the lemmas at the end state what any such
    sequence can and cannot change. */
module RichMedia {
  import opened PdfObjects

  /** A Java int: the parameter type of setTime. */
  newtype Int32 = x: int | -0x8000_0000 <= x < 0x8000_0000

  /** The one failure of this dictionary: an IllegalPdfSyntaxException. */
  datatype Error = IllegalPdfSyntax(message: string)

  const ActionNotDictionary := "An action should be defined as a dictionary"

  datatype Result<T> = Success(value: T) | Failure(error: Error)

  /** What a void Java method that may throw comes back with. */
  datatype Outcome = Pass | Fail(error: Error)

  /** The keys the three setters write; every other key is theirs to leave alone. */
  const SetterKeys: set<Name> := {NameKey, TimeKey, ActionKey}

  /** Every key a cue point dictionary can hold when only its own members write it. */
  const CuePointKeys: set<Name> := {TypeKey, SubtypeKey, NameKey, TimeKey, ActionKey}

  /** The objects setAction accepts: any dictionary (a CuePoint included, being
      one itself) or an indirect reference. */
  predicate IsAction(v: Value)
  {
    v.Dict? || v.IndirectRef?
  }

  /** The entries of a freshly constructed cue point: the type CuePoint, given to
      the PdfDictionary constructor, and the subtype exactly as passed. Nothing
      restricts the subtype to Navigation or Event. */
  function NewCuePoint(subtype: Name): (r: Entries)
    ensures r.Keys == {TypeKey, SubtypeKey}
    ensures r[TypeKey] == NameVal(CuePointType)
    ensures r[SubtypeKey] == NameVal(subtype)
  {
    Put(map[TypeKey := NameVal(CuePointType)], SubtypeKey, NameVal(subtype))
  }

  /** setName: the string is stored under Name, overwriting any earlier name. */
  function WithName(d: Entries, name: string): (r: Entries)
    ensures NameKey in r && r[NameKey] == Str(name)
    ensures r.Keys == d.Keys + {NameKey}
    ensures AgreeOutside(d, r, {NameKey})
  {
    Put(d, NameKey, Str(name))
  }

  /** setTime: a number equal to the time is stored under Time; zero and
      negative times are stored as given. */
  function WithTime(d: Entries, time: Int32): (r: Entries)
    ensures TimeKey in r && r[TimeKey] == Num(time as int)
    ensures r.Keys == d.Keys + {TimeKey}
    ensures AgreeOutside(d, r, {TimeKey})
  {
    Put(d, TimeKey, Num(time as int))
  }

  /** setAction: a dictionary or an indirect reference is stored under A; any
      other object is refused with an IllegalPdfSyntaxException and nothing
      is stored. */
  function WithAction(d: Entries, action: Value): (r: Result<Entries>)
    ensures r.Success? <==> IsAction(action)
    ensures r.Success? ==> ActionKey in r.value && r.value[ActionKey] == action
    ensures r.Success? ==> r.value.Keys == d.Keys + {ActionKey} && AgreeOutside(d, r.value, {ActionKey})
    ensures r.Failure? ==> r.error == IllegalPdfSyntax(ActionNotDictionary)
  {
    if IsAction(action) then
      Success(Put(d, ActionKey, action))
    else
      Failure(IllegalPdfSyntax(ActionNotDictionary))
  }

  /** A CuePoint object over the entries of its inherited dictionary. */
  class CuePoint {
    var entries: Entries

    constructor (subtype: Name)
      ensures entries == NewCuePoint(subtype)
    {
      entries := map[TypeKey := NameVal(CuePointType)];
      new;
      entries := Put(entries, SubtypeKey, NameVal(subtype));
    }

    method SetName(name: string)
      modifies this
      ensures entries == WithName(old(entries), name)
      ensures entries == After(old(entries), Call.SetName(name))
    {
      entries := Put(entries, NameKey, Str(name));
    }

    method SetTime(time: Int32)
      modifies this
      ensures entries == WithTime(old(entries), time)
      ensures entries == After(old(entries), Call.SetTime(time))
    {
      entries := Put(entries, TimeKey, Num(time as int));
    }

    method SetAction(action: Value) returns (outcome: Outcome)
      modifies this
      ensures outcome.Pass? <==> IsAction(action)
      ensures outcome.Pass? ==> WithAction(old(entries), action) == Success(entries)
      ensures outcome.Fail? ==> WithAction(old(entries), action) == Failure(outcome.error)
      ensures outcome.Fail? ==> entries == old(entries)
      ensures entries == After(old(entries), Call.SetAction(action))
    {
      if IsAction(action) {
        entries := Put(entries, ActionKey, action);
        outcome := Pass;
      } else {
        outcome := Fail(IllegalPdfSyntax(ActionNotDictionary));
      }
    }
  }

  /** A client's call of one of the setters. */
  datatype Call = SetName(name: string) | SetTime(time: Int32) | SetAction(action: Value)

  /** The key a call writes. */
  function KeyOf(c: Call): Name
  {
    match c
    case SetName(_) => NameKey
    case SetTime(_) => TimeKey
    case SetAction(_) => ActionKey
  }

  /** Whether the call is carried out rather than refused. */
  predicate Accepted(c: Call)
  {
    !c.SetAction? || IsAction(c.action)
  }

  /** The value an accepted call stores. */
  function Stored(c: Call): Value
  {
    match c
    case SetName(n) => Str(n)
    case SetTime(t) => Num(t as int)
    case SetAction(a) => a
  }

  /** The entries after one call; a refused setAction, whose exception the
      caller catches, leaves them as they were. */
  function After(d: Entries, c: Call): (r: Entries)
    ensures Accepted(c) ==> KeyOf(c) in r && r[KeyOf(c)] == Stored(c)
    ensures !Accepted(c) ==> r == d
    ensures AgreeOutside(d, r, {KeyOf(c)})
  {
    match c
    case SetName(n) => WithName(d, n)
    case SetTime(t) => WithTime(d, t)
    case SetAction(a) =>
      match WithAction(d, a)
      case Success(e) => e
      case Failure(_) => d
  }

  /** The entries after the calls, made in order. No sequence of setter calls
      changes an entry outside Name, Time and A, so Type and Subtype keep
      their values. */
  function Run(d: Entries, calls: seq<Call>): (r: Entries)
    ensures AgreeOutside(d, r, SetterKeys)
    decreases |calls|
  {
    if calls == [] then d else Run(After(d, calls[0]), calls[1..])
  }

  /** A cue point keeps its type and subtype, and holds no key but its own,
      whatever setter calls follow its construction. */
  lemma DiscriminatorSurvivesCalls(subtype: Name, calls: seq<Call>)
    ensures Run(NewCuePoint(subtype), calls)[TypeKey] == NameVal(CuePointType)
    ensures Run(NewCuePoint(subtype), calls)[SubtypeKey] == NameVal(subtype)
    ensures Run(NewCuePoint(subtype), calls).Keys <= CuePointKeys
  {
  }

  /** Making calls a and then calls b is making the calls a + b. */
  lemma {:induction false} RunAppend(d: Entries, a: seq<Call>, b: seq<Call>)
    ensures Run(d, a + b) == Run(Run(d, a), b)
    decreases |a|
  {
    if a == [] {
      assert a + b == b;
    } else {
      assert (a + b)[0] == a[0];
      assert (a + b)[1..] == a[1..] + b;
      RunAppend(After(d, a[0]), a[1..], b);
    }
  }

  /** Calls that write other keys, or are refused, leave the entry under k as it was. */
  lemma {:induction false} RunLeavesKey(d: Entries, calls: seq<Call>, k: Name)
    requires forall i :: 0 <= i < |calls| ==> KeyOf(calls[i]) != k || !Accepted(calls[i])
    ensures k in Run(d, calls) <==> k in d
    ensures k in d ==> Run(d, calls)[k] == d[k]
    decreases |calls|
  {
    if calls != [] {
      assert KeyOf(calls[0]) != k || !Accepted(calls[0]);
      RunLeavesKey(After(d, calls[0]), calls[1..], k);
    }
  }

  /** Last write wins: after an accepted call, its key holds the value it stored
      until another accepted call writes that key. */
  lemma LastWriteWins(d: Entries, before: seq<Call>, c: Call, later: seq<Call>)
    requires Accepted(c)
    requires forall i :: 0 <= i < |later| ==> KeyOf(later[i]) != KeyOf(c) || !Accepted(later[i])
    ensures KeyOf(c) in Run(d, before + [c] + later)
    ensures Run(d, before + [c] + later)[KeyOf(c)] == Stored(c)
  {
    RunAppend(d, before + [c], later);
    RunAppend(d, before, [c]);
    var e := Run(d, before);
    assert Run(e, [c]) == Run(After(e, c), []);
    RunLeavesKey(Run(d, before + [c]), later, KeyOf(c));
  }

  /** A refused setAction, anywhere in a sequence of calls, changes nothing: the
      entries are those of the same sequence without it, and an earlier action
      stays in place. */
  lemma RefusedActionChangesNothing(d: Entries, before: seq<Call>, action: Value, later: seq<Call>)
    requires !IsAction(action)
    ensures Run(d, before + [SetAction(action)] + later) == Run(d, before + later)
  {
    var c := SetAction(action);
    RunAppend(d, before + [c], later);
    RunAppend(d, before, [c]);
    RunAppend(d, before, later);
    var e := Run(d, before);
    assert Run(e, [c]) == Run(After(e, c), []);
  }

  /** A CuePoint is itself a dictionary, so it can be the action of another,
      whatever setter calls were made on it before. */
  lemma CuePointIsAnAction(d: Entries, subtype: Name, calls: seq<Call>)
    ensures var cue := Dict(Run(NewCuePoint(subtype), calls));
      WithAction(d, cue) == Success(d[ActionKey := cue])
  {
  }

  /** A navigation cue point named "chapter1" at 1500 ms, whose action is first
      refused and then set; what a caller can conclude from the contracts. */
  method ChapterScenario(action: Value)
    requires action.Dict?
  {
    var cue := new CuePoint(Navigation);
    cue.SetName("chapter1");
    cue.SetTime(1500);
    var refused := cue.SetAction(Num(5));
    assert refused == Fail(IllegalPdfSyntax(ActionNotDictionary));
    assert ActionKey !in cue.entries;
    var accepted := cue.SetAction(action);
    assert accepted == Pass;
    assert cue.entries[TypeKey] == NameVal(CuePointType);
    assert cue.entries[SubtypeKey] == NameVal(Navigation);
    assert cue.entries[NameKey] == Str("chapter1");
    assert cue.entries[TimeKey] == Num(1500);
    assert cue.entries[ActionKey] == action;
  }
}
