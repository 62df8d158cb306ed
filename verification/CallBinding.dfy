/** Parameter lists, and how Python binds a call to one (Python Language Reference, section 6.3.4, "Calls"). */
module CallBinding {
  import opened Texts
  import opened EncodedValues

  datatype Kind = PO | PK | VP | KO | VK

  datatype Param = Param(kind: Kind, name: string, default: Option<Encoded>)

  predicate IsSlot(p: Param) { p.kind == PO || p.kind == PK }

  /** The positional slots, in order. */
  function Slots(ps: seq<Param>): (r: seq<Param>)
    ensures forall p :: p in r <==> p in ps && IsSlot(p)
  {
    if ps == [] then []
    else (if IsSlot(ps[0]) then [ps[0]] else []) + Slots(ps[1..])
  }

  predicate HasKind(ps: seq<Param>, kind: Kind)
  {
    exists p :: p in ps && p.kind == kind
  }

  // --- well-formed lists -------------------------------------------------------------------

  function Order(kind: Kind): nat
  {
    match kind case PO => 0 case PK => 1 case VP => 2 case KO => 3 case VK => 4
  }

  predicate DistinctNames(ps: seq<Param>)
  {
    forall i, j :: 0 <= i < j < |ps| ==> ps[i].name != ps[j].name
  }

  predicate KindsInOrder(ps: seq<Param>)
  {
    forall i, j :: 0 <= i < j < |ps| ==>
      Order(ps[i].kind) <= Order(ps[j].kind) && (ps[i].kind == ps[j].kind ==> ps[i].kind != VP && ps[i].kind != VK)
  }

  /** Once a slot has a default, every later slot has one. */
  predicate TrailingDefaults(slots: seq<Param>)
  {
    forall i, j :: 0 <= i < j < |slots| && slots[i].default.Some? ==> slots[j].default.Some?
  }

  /** What `def` enforces on a parameter list. */
  predicate WellFormed(ps: seq<Param>)
  {
    DistinctNames(ps) && KindsInOrder(ps) && TrailingDefaults(Slots(ps))
  }

  // --- binding -----------------------------------------------------------------------------

  /** The shape of a call: how many positional arguments, and which keywords. */
  datatype Call = Call(positional: nat, keywords: set<string>)

  /** Where the value of a parameter comes from. */
  datatype Source = Positional(index: nat) | Keyword(name: string) | Default(value: Encoded) | Missing

  function Unfilled(p: Param): Source
  {
    if p.default.Some? then Default(p.default.value) else Missing
  }

  /** The source of slot `i`: a positional argument first, then (unless positional-only) its keyword. */
  function SlotSource(slots: seq<Param>, c: Call, i: nat): Source
    requires i < |slots|
  {
    if i < c.positional then Positional(i)
    else if slots[i].kind == PK && slots[i].name in c.keywords then Keyword(slots[i].name)
    else Unfilled(slots[i])
  }

  function KeywordSource(p: Param, c: Call): Source
  {
    if p.name in c.keywords then Keyword(p.name) else Unfilled(p)
  }

  /** Keyword `k` names a slot no positional argument fills. */
  predicate NamesSlot(ps: seq<Param>, c: Call, k: string)
  {
    exists i :: c.positional <= i < |Slots(ps)| && Slots(ps)[i].kind == PK && Slots(ps)[i].name == k
  }

  /** Keyword `k` names such a slot, or a keyword-only parameter. */
  predicate NamesParam(ps: seq<Param>, c: Call, k: string)
  {
    NamesSlot(ps, c, k) || exists p :: p in ps && p.kind == KO && p.name == k
  }

  /** Keyword `k` names a parameter that a positional argument already fills. */
  predicate Collides(ps: seq<Param>, c: Call, k: string)
  {
    exists i :: 0 <= i < |Slots(ps)| && i < c.positional && Slots(ps)[i].kind == PK && Slots(ps)[i].name == k
  }

  predicate KeywordAccepted(ps: seq<Param>, c: Call, k: string)
  {
    !Collides(ps, c, k) && (NamesParam(ps, c, k) || HasKind(ps, VK))
  }

  /** Python accepts the call. */
  predicate Accepts(ps: seq<Param>, c: Call)
  {
    var slots := Slots(ps);
    (c.positional <= |slots| || HasKind(ps, VP))
    && (forall k :: k in c.keywords ==> KeywordAccepted(ps, c, k))
    && (forall i :: 0 <= i < |slots| ==> SlotSource(slots, c, i) != Missing)
    && (forall p :: p in ps && p.kind == KO ==> KeywordSource(p, c) != Missing)
  }

  /** The positions of the arguments `*args` collects: from here, when `positional` is larger. */
  function StarFrom(ps: seq<Param>, c: Call): (r: nat)
  {
    if |Slots(ps)| < c.positional then |Slots(ps)| else c.positional
  }

  // --- the same binding --------------------------------------------------------------------

  /** Both get the same argument, or both their default, the same value. */
  predicate SameSource(a: Source, b: Source)
  {
    if a.Default? && b.Default? then ValuesEqual(a.value, b.value) else a == b
  }

  /** The parameter called `name` in `ps` is bound as `source` says. */
  predicate BoundByName(ps: seq<Param>, c: Call, name: string, source: Source)
  {
    (exists i :: 0 <= i < |Slots(ps)| && Slots(ps)[i].name == name && SameSource(source, SlotSource(Slots(ps), c, i)))
    || (exists p :: p in ps && p.kind == KO && p.name == name && SameSource(source, KeywordSource(p, c)))
  }

  /**
   * The new list binds the call as the old one did. A positional-only parameter is its position, any
   * other parameter is its name; `*args` collects the same arguments; a keyword only `**kwargs` took
   * may go anywhere.
   */
  predicate Preserves(was: seq<Param>, now: seq<Param>, c: Call)
  {
    Accepts(now, c)
    && (forall i :: 0 <= i < |Slots(was)| && Slots(was)[i].kind == PO ==>
          i < |Slots(now)| && SameSource(SlotSource(Slots(was), c, i), SlotSource(Slots(now), c, i)))
    && (forall i :: 0 <= i < |Slots(was)| && Slots(was)[i].kind == PK ==>
          BoundByName(now, c, Slots(was)[i].name, SlotSource(Slots(was), c, i)))
    && (forall p :: p in was && p.kind == KO ==> BoundByName(now, c, p.name, KeywordSource(p, c)))
    && StarFrom(was, c) == StarFrom(now, c)
  }

  /** Every call the old list accepts, the new one accepts and binds the same way. */
  ghost predicate Compatible(was: seq<Param>, now: seq<Param>)
  {
    forall c: Call :: Accepts(was, c) ==> Preserves(was, now, c)
  }
}
