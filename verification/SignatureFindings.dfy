/** The findings `compare_params` reports between two parameter lists. */
module SignatureFindings {
  import opened EncodedValues
  import opened CallBinding

  datatype Label = BySlot(i: nat) | ByName(name: string)

  /** One finding of `compare_params`, by the message it prints. */
  datatype Finding =
    | StarRemoved(kind: Kind)
    | NarrowedToKeywordOnly(name: string, kind: Kind)
    | SlotRemoved(slot: nat, name: string)
    | SlotRenamed(slot: nat, now: string, was: string)
    | NarrowedToPositionalOnly(name: string)
    | LostDefault(what: Label)
    | DefaultChanged(what: Label, before: Encoded, after: Encoded)
    | KeywordMovedIntoSlot(name: string, slot: nat)
    | KeywordBesideKwargs(name: string)
    | CapturesStarArgs(names: seq<string>)
    | KeywordRemoved(name: string)
    | KeywordNarrowed(name: string)
    | NewRequired(name: string)

  // --- the specification -------------------------------------------------------------------

  /** `new_named`: the non-variadic parameters by name; a later one wins. */
  function Named(ps: seq<Param>): map<string, Param>
  {
    if ps == [] then map[]
    else
      var p, before := ps[|ps| - 1], Named(ps[..|ps| - 1]);
      if p.kind == VP || p.kind == VK then before else before[p.name := p]
  }

  function KeywordOnlyNames(ps: seq<Param>): set<string>
  {
    set p | p in ps && p.kind == KO :: p.name
  }

  function KeywordNames(ps: seq<Param>): set<string>
  {
    set p | p in ps && (p.kind == PK || p.kind == KO) :: p.name
  }

  function DefaultFindings(what: Label, op: Param, np: Param): seq<Finding>
  {
    if op.default.None? then []
    else if np.default.None? then [LostDefault(what)]
    else if !ValuesEqual(op.default.value, np.default.value)
    then [DefaultChanged(what, op.default.value, np.default.value)]
    else []
  }

  function Removed(was: seq<Param>, now: seq<Param>, kind: Kind): seq<Finding>
  {
    if HasKind(was, kind) && !HasKind(now, kind) then [StarRemoved(kind)] else []
  }

  function SlotFindings(was: seq<Param>, now: seq<Param>, i: nat): seq<Finding>
    requires i < |Slots(was)|
  {
    var op := Slots(was)[i];
    if i >= |Slots(now)| then
      if op.name in Named(now) && Named(now)[op.name].kind == KO
      then [NarrowedToKeywordOnly(op.name, op.kind)]
      else [SlotRemoved(i, op.name)]
    else
      var np := Slots(now)[i];
      if op.kind == PK then
        if np.name != op.name then [SlotRenamed(i, np.name, op.name)]
        else if np.kind == PO then [NarrowedToPositionalOnly(op.name)]
        else DefaultFindings(ByName(op.name), op, np)
      else
        (if np.kind == PK && np.name in KeywordOnlyNames(was) then [KeywordMovedIntoSlot(np.name, i)]
         else if np.kind == PK && HasKind(was, VK) then [KeywordBesideKwargs(np.name)]
         else [])
        + DefaultFindings(BySlot(i), op, np)
  }

  function SlotsFindings(was: seq<Param>, now: seq<Param>, n: nat): seq<Finding>
    requires n <= |Slots(was)|
  {
    if n == 0 then [] else SlotsFindings(was, now, n - 1) + SlotFindings(was, now, n - 1)
  }

  function NamesOf(ps: seq<Param>): seq<string>
  {
    seq(|ps|, i requires 0 <= i < |ps| => ps[i].name)
  }

  function Captures(was: seq<Param>, now: seq<Param>): seq<Finding>
  {
    if HasKind(was, VP) && |Slots(now)| > |Slots(was)|
    then [CapturesStarArgs(NamesOf(Slots(now)[|Slots(was)|..]))]
    else []
  }

  function KeywordFindings(op: Param, now: seq<Param>): seq<Finding>
  {
    if op.kind != KO then []
    else if op.name !in Named(now) then [KeywordRemoved(op.name)]
    else if Named(now)[op.name].kind == PO then [KeywordNarrowed(op.name)]
    else DefaultFindings(ByName(op.name), op, Named(now)[op.name])
  }

  function KeywordsFindings(was: seq<Param>, now: seq<Param>, n: nat): seq<Finding>
    requires n <= |was|
  {
    if n == 0 then [] else KeywordsFindings(was, now, n - 1) + KeywordFindings(was[n - 1], now)
  }

  function SlotRequired(was: seq<Param>, now: seq<Param>, i: nat): seq<Finding>
    requires i < |Slots(now)|
  {
    var np := Slots(now)[i];
    if np.default.None? && i >= |Slots(was)| && np.name !in KeywordNames(was) then [NewRequired(np.name)] else []
  }

  function SlotsRequired(was: seq<Param>, now: seq<Param>, n: nat): seq<Finding>
    requires n <= |Slots(now)|
  {
    if n == 0 then [] else SlotsRequired(was, now, n - 1) + SlotRequired(was, now, n - 1)
  }

  function KeywordRequired(was: seq<Param>, np: Param): seq<Finding>
  {
    if np.kind == KO && np.default.None? && np.name !in KeywordNames(was) then [NewRequired(np.name)] else []
  }

  function KeywordsRequired(was: seq<Param>, now: seq<Param>, n: nat): seq<Finding>
    requires n <= |now|
  {
    if n == 0 then [] else KeywordsRequired(was, now, n - 1) + KeywordRequired(was, now[n - 1])
  }

  /** Every finding, in the order they are appended. */
  function Findings(was: seq<Param>, now: seq<Param>): seq<Finding>
  {
    Removed(was, now, VP) + Removed(was, now, VK)
    + SlotsFindings(was, now, |Slots(was)|)
    + Captures(was, now)
    + KeywordsFindings(was, now, |was|)
    + SlotsRequired(was, now, |Slots(now)|)
    + KeywordsRequired(was, now, |now|)
  }
}
