/**
 * The first half of `TwitterCrawler._parse_and_save`
 * (`tweet_harvest/crawler.py`): locating the list of raw timeline entries in
 * one decoded GraphQL payload. Two shapes are recognised, the search
 * timeline (which takes priority) and the user timeline, whose entries are
 * gathered from `TimelineAddEntries` and `TimelinePinEntry` instructions.
 *
 * The outcome is `Some(entries)`, or `None` when an exception escapes the
 * resolver (an `AttributeError` outside the `try`, a `KeyError` or a
 * `TypeError`), which abandons the whole payload.
 */
module Resolver {
  import opened Values

  /**
   * What `for x in v` (or `list.extend(v)`) yields, or None for a value
   * that is not iterable (null, a number, a bool: `TypeError`). A string
   * yields its characters as one-character strings. A dict yields its keys,
   * which are strings; every consumer of the result rejects strings, so the
   * model yields nothing for a dict.
   */
  function Iterate(v: Json): (r: Option<seq<Json>>)
    ensures v.JArr? ==> r == Some(v.items)
    ensures r.None? <==> (v.JNull? || v.JInt? || v.JBool?)
    ensures r.Some? && !v.JArr? ==> forall i :: 0 <= i < |r.value| ==> r.value[i].JStr?
  {
    match v
    case JArr(items) => Some(items)
    case JStr(s) => Some(seq(|s|, i requires 0 <= i < |s| => JStr([s[i]])))
    case JObj(_) => Some([])
    case _ => None
  }

  /** `d.get(key, {})` followed by another `.get`: None when the value is not a dict (`AttributeError`). */
  function Child(v: Json, key: string): Option<map<string, Json>>
  {
    if v.JObj? && Get(v.obj, key, EmptyObj).JObj? then Some(Get(v.obj, key, EmptyObj).obj) else None
  }

  // ---------------------------------------------------------------------------
  // Search timeline: `...search_timeline.timeline.instructions[0].entries`
  // ---------------------------------------------------------------------------

  /**
   * The `entries` value after `if not entries: return`: a falsy value gives
   * nothing, anything else is iterated.
   */
  function EntriesOf(e: Json): Option<seq<Json>>
  {
    if !Truthy(e) then Some([]) else Iterate(e)
  }

  /**
   * The search branch, given the truthy `data.search_by_raw_query`. Missing
   * levels default to `{}` and `instructions` to `[{}]`. An `IndexError` or
   * `AttributeError` is swallowed and leaves no entries; indexing a dict
   * (`KeyError`) or a null or a number (`TypeError`) escapes.
   */
  function SearchEntries(query: Json): Option<seq<Json>>
  {
    if !query.JObj? then Some([])
    else
      match Child(query, "search_timeline")
      case None => Some([])
      case Some(st) =>
        match Child(JObj(st), "timeline")
        case None => Some([])
        case Some(tl) =>
          match Get(tl, "instructions", JArr([EmptyObj]))
          case JArr(items) =>
            if items == [] || !items[0].JObj? then Some([])
            else EntriesOf(Get(items[0].obj, "entries", JArr([])))
          case JStr(_) => Some([])
          case _ => None
  }

  // ---------------------------------------------------------------------------
  // User timeline: a fold over the instructions
  // ---------------------------------------------------------------------------

  /**
   * The state of the instruction loop: still running, stopped by an
   * `AttributeError` that the `try` swallows (the entries gathered so far
   * are kept), or crashed by a `TypeError` that escapes.
   */
  datatype Gathering = Running(entries: seq<Json>) | Halted(entries: seq<Json>) | Crashed

  const AddEntries: Json := JStr("TimelineAddEntries")
  const PinEntry: Json := JStr("TimelinePinEntry")

  /** One iteration of the instruction loop. */
  function Step(g: Gathering, instruction: Json): Gathering
  {
    match g
    case Halted(_) => g
    case Crashed => g
    case Running(entries) =>
      if !instruction.JObj? then Halted(entries)
      else
        var kind := GetOrNull(instruction.obj, "type");
        if kind == AddEntries then
          match Iterate(Get(instruction.obj, "entries", JArr([])))
          case None => Crashed
          case Some(more) => Running(entries + more)
        else if kind == PinEntry then
          var entry := GetOrNull(instruction.obj, "entry");
          if Truthy(entry) then Running(entries + [entry]) else Running(entries)
        else Running(entries)
  }

  /** The loop state after the given instructions, left to right. */
  function Gather(instructions: seq<Json>): Gathering
  {
    if instructions == [] then Running([])
    else Step(Gather(instructions[..|instructions| - 1]), instructions[|instructions| - 1])
  }

  /** The entries a finished loop leaves, or None when it crashed. */
  function Outcome(g: Gathering): Option<seq<Json>>
  {
    if g.Crashed? then None else Some(g.entries)
  }

  /** The path `user.result.timeline.timeline.instructions`, defaulting to `[]`. */
  function TimelineInstructions(user: Json): Option<Json>
  {
    match Child(user, "result")
    case None => None
    case Some(r) =>
      match Child(JObj(r), "timeline")
      case None => None
      case Some(t) =>
        match Child(JObj(t), "timeline")
        case None => None
        case Some(tt) => Some(Get(tt, "instructions", JArr([])))
  }

  /** The user branch, given the truthy `data.user`. */
  function UserEntries(user: Json): Option<seq<Json>>
  {
    if !user.JObj? then Some([])
    else
      match TimelineInstructions(user)
      case None => Some([])
      case Some(v) =>
        match Iterate(v)
        case None => None
        case Some(instructions) => Outcome(Gather(instructions))
  }

  // ---------------------------------------------------------------------------
  // The resolver
  // ---------------------------------------------------------------------------

  /**
   * The entries of a payload. A payload or a `data` value that is not a
   * dict raises `AttributeError` outside the `try`: the payload is dropped.
   */
  function Resolve(payload: Json): Option<seq<Json>>
  {
    if !payload.JObj? then None
    else
      var data := Get(payload.obj, "data", EmptyObj);
      if !data.JObj? then None
      else if Truthy(GetOrNull(data.obj, "search_by_raw_query")) then SearchEntries(data.obj["search_by_raw_query"])
      else if Truthy(GetOrNull(data.obj, "user")) then UserEntries(data.obj["user"])
      else Some([])
  }

  /** `_parse_and_save`'s resolving phase, with the user branch's loop written out. */
  method ResolveEntries(payload: Json) returns (r: Option<seq<Json>>)
    ensures r == Resolve(payload)
  {
    if !payload.JObj? {
      return None;
    }
    var data := Get(payload.obj, "data", EmptyObj);
    if !data.JObj? {
      return None;
    }
    if Truthy(GetOrNull(data.obj, "search_by_raw_query")) {
      return SearchEntries(data.obj["search_by_raw_query"]);
    }
    if !Truthy(GetOrNull(data.obj, "user")) {
      return Some([]);
    }
    var user := data.obj["user"];
    if !user.JObj? {
      return Some([]);
    }
    var found := TimelineInstructions(user);
    if found.None? {
      return Some([]);
    }
    var iterated := Iterate(found.value);
    if iterated.None? {
      return None;
    }
    var instructions := iterated.value;
    var entries: seq<Json> := [];
    var i := 0;
    while i < |instructions|
      invariant 0 <= i <= |instructions|
      invariant Gather(instructions[..i]) == Running(entries)
    {
      var instruction := instructions[i];
      assert instructions[..i + 1][..i] == instructions[..i];
      if !instruction.JObj? {
        GatherStopped(instructions, i + 1);
        return Some(entries);
      }
      var kind := GetOrNull(instruction.obj, "type");
      if kind == AddEntries {
        var more := Iterate(Get(instruction.obj, "entries", JArr([])));
        if more.None? {
          GatherStopped(instructions, i + 1);
          return None;
        }
        entries := entries + more.value;
      } else if kind == PinEntry {
        var entry := GetOrNull(instruction.obj, "entry");
        if Truthy(entry) {
          entries := entries + [entry];
        }
      }
      i := i + 1;
    }
    assert instructions[..i] == instructions;
    return Some(entries);
  }

  // ---------------------------------------------------------------------------
  // Properties
  // ---------------------------------------------------------------------------

  /** Once the loop has stopped or crashed, later instructions change nothing. */
  lemma {:induction false} GatherStopped(instructions: seq<Json>, k: nat)
    requires k <= |instructions|
    requires !Gather(instructions[..k]).Running?
    ensures Gather(instructions) == Gather(instructions[..k])
  {
    if k < |instructions| {
      var init := instructions[..|instructions| - 1];
      assert init[..k] == instructions[..k];
      GatherStopped(init, k);
    } else {
      assert instructions[..k] == instructions;
    }
  }

  /** The search shape takes priority: whatever `data.user` holds is not looked at. */
  lemma SearchTakesPriority(payload: map<string, Json>, data: map<string, Json>, user: Json)
    requires Get(payload, "data", EmptyObj) == JObj(data)
    requires Truthy(GetOrNull(data, "search_by_raw_query"))
    ensures Resolve(JObj(payload["data" := JObj(data["user" := user])])) == Resolve(JObj(payload))
    ensures Resolve(JObj(payload)) == SearchEntries(data["search_by_raw_query"])
  {
    assert data["user" := user]["search_by_raw_query"] == data["search_by_raw_query"];
  }

  /** A search payload in the expected shape: a dict for each level, ending in the instruction list. */
  function SearchPayload(instructions: Json): Json
  {
    JObj(map["data" := JObj(map["search_by_raw_query" := JObj(map["search_timeline" :=
      JObj(map["timeline" := JObj(map["instructions" := instructions])])])])])
  }

  /** In the search shape the entries are exactly `instructions[0].entries`, in order. */
  lemma SearchTakesFirstInstruction(first: map<string, Json>, rest: seq<Json>, entries: seq<Json>)
    requires "entries" in first && first["entries"] == JArr(entries)
    ensures Resolve(SearchPayload(JArr([JObj(first)] + rest))) == Some(entries)
  {
    var p := SearchPayload(JArr([JObj(first)] + rest));
    var data := p.obj["data"].obj;
    assert "search_timeline" in data["search_by_raw_query"].obj;
    if entries == [] {
      assert EntriesOf(JArr(entries)) == Some([]);
    }
  }

  /** An empty instruction list, or none at all, yields no entries (the `IndexError` is swallowed). */
  lemma SearchWithoutInstructions()
    ensures Resolve(SearchPayload(JArr([]))) == Some([])
    ensures Resolve(JObj(map["data" := JObj(map["search_by_raw_query" := JObj(map["search_timeline" :=
      JObj(map["timeline" := EmptyObj])])])])) == Some([])
  {
    var p := SearchPayload(JArr([]));
    assert "search_timeline" in p.obj["data"].obj["search_by_raw_query"].obj;
  }

  /**
   * What one well-formed instruction contributes: the list of a
   * `TimelineAddEntries`, the truthy entry of a `TimelinePinEntry`,
   * nothing for any other type.
   */
  function Contribution(instruction: map<string, Json>): seq<Json>
  {
    var kind := GetOrNull(instruction, "type");
    var entries := Get(instruction, "entries", JArr([]));
    var entry := GetOrNull(instruction, "entry");
    if kind == AddEntries && entries.JArr? then entries.items
    else if kind == PinEntry && Truthy(entry) then [entry]
    else []
  }

  /** Instructions the loop runs through without an exception. */
  predicate WellFormed(instruction: Json)
  {
    instruction.JObj?
    && (GetOrNull(instruction.obj, "type") == AddEntries ==> Get(instruction.obj, "entries", JArr([])).JArr?)
  }

  /** The contributions of the instructions, concatenated in instruction order. */
  function Concat(instructions: seq<Json>): seq<Json>
    requires forall i :: 0 <= i < |instructions| ==> WellFormed(instructions[i])
  {
    if instructions == [] then []
    else
      assert WellFormed(instructions[0]);
      Contribution(instructions[0].obj) + Concat(instructions[1..])
  }

  lemma {:induction false} ConcatSnoc(instructions: seq<Json>)
    requires instructions != []
    requires forall i :: 0 <= i < |instructions| ==> WellFormed(instructions[i])
    ensures Concat(instructions) ==
      Concat(instructions[..|instructions| - 1]) + Contribution(instructions[|instructions| - 1].obj)
  {
    if |instructions| > 1 {
      var tail := instructions[1..];
      assert tail[..|tail| - 1] == instructions[..|instructions| - 1][1..];
      ConcatSnoc(tail);
    }
  }

  /**
   * Over well-formed instructions the loop concatenates each
   * `TimelineAddEntries` list and appends each truthy pinned entry, in
   * instruction order, ignoring other instruction types.
   */
  lemma {:induction false} GatherConcatenates(instructions: seq<Json>)
    requires forall i :: 0 <= i < |instructions| ==> WellFormed(instructions[i])
    ensures Gather(instructions) == Running(Concat(instructions))
  {
    if instructions != [] {
      var init := instructions[..|instructions| - 1];
      GatherConcatenates(init);
      ConcatSnoc(instructions);
    }
  }

  /**
   * An instruction that is not a dict raises `AttributeError`, which the
   * `try` swallows: the entries gathered before it are kept and nothing
   * after it is read.
   */
  lemma {:induction false} KeepsPrefixOnAttributeError(instructions: seq<Json>, k: nat)
    requires k < |instructions| && !instructions[k].JObj?
    requires forall i :: 0 <= i < k ==> WellFormed(instructions[i])
    ensures Gather(instructions) == Halted(Concat(instructions[..k]))
  {
    var prefix := instructions[..k];
    assert forall i :: 0 <= i < |prefix| ==> WellFormed(prefix[i]);
    GatherConcatenates(prefix);
    var upto := instructions[..k + 1];
    assert upto[..|upto| - 1] == prefix && upto[|upto| - 1] == instructions[k];
    assert Gather(upto) == Step(Gather(prefix), instructions[k]);
    StepHalts(Gather(prefix), instructions[k]);
    GatherStopped(instructions, k + 1);
  }

  /** A running loop stops at an instruction that is not a dict, keeping its entries. */
  lemma StepHalts(g: Gathering, instruction: Json)
    requires g.Running? && !instruction.JObj?
    ensures Step(g, instruction) == Halted(g.entries)
  {
  }

  /** A `data.user` value in the user-timeline shape. */
  function UserTimeline(instructions: Json): Json
  {
    JObj(map["result" := JObj(map["timeline" := JObj(map["timeline" := JObj(map["instructions" := instructions])])])])
  }

  /** A payload in the user-timeline shape. */
  function UserPayload(instructions: Json): Json
  {
    JObj(map["data" := JObj(map["user" := UserTimeline(instructions)])])
  }

  lemma UserPayloadResolves(instructions: Json)
    ensures Resolve(UserPayload(instructions)) == UserEntries(UserTimeline(instructions))
  {
    var user := UserTimeline(instructions);
    assert "result" in user.obj;
    var data := map["user" := user];
    assert "search_by_raw_query" !in data;
  }

  lemma UserTimelineEntries(instructions: seq<Json>)
    ensures UserEntries(UserTimeline(JArr(instructions))) == Outcome(Gather(instructions))
  {
    assert TimelineInstructions(UserTimeline(JArr(instructions))) == Some(JArr(instructions));
  }

  /** The user shape end to end: the resolver returns the concatenation of the contributions. */
  lemma UserShapeConcatenates(instructions: seq<Json>)
    requires forall i :: 0 <= i < |instructions| ==> WellFormed(instructions[i])
    ensures Resolve(UserPayload(JArr(instructions))) == Some(Concat(instructions))
  {
    GatherConcatenates(instructions);
    UserTimelineEntries(instructions);
    UserPayloadResolves(JArr(instructions));
  }

  /** A payload with neither shape, or one that is not a dict, gives no entries. */
  lemma NeitherShape(payload: Json)
    ensures !payload.JObj? ==> Resolve(payload) == None
    ensures payload.JObj? && Get(payload.obj, "data", EmptyObj).JObj?
      && !Truthy(GetOrNull(Get(payload.obj, "data", EmptyObj).obj, "search_by_raw_query"))
      && !Truthy(GetOrNull(Get(payload.obj, "data", EmptyObj).obj, "user"))
      ==> Resolve(payload) == Some([])
  {
  }
}
