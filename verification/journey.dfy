/**
 * The journey section: phases of captioned images, flattened into the one item
 * list the curved gallery shows, and the lookup from a gallery index back to the
 * name of the phase it belongs to.
 */
module Journey {
  import opened Wrappers
  import opened Gallery

  /** One image of a phase. */
  datatype PhaseItem = PhaseItem(title: string, caption: string, image: string,
                                 alt: Option<string>, placeholder: bool)

  /** A named phase and its images, in order. */
  datatype Phase = Phase(name: string, items: seq<PhaseItem>)

  // ---------------------------------------------------------------------------
  // Flattening

  /** `i.alt || i.title`: the alt text unless it is absent or empty, then the title. */
  function AltText(i: PhaseItem): (a: string)
    ensures i.alt.Some? && i.alt.value != "" ==> a == i.alt.value
    ensures i.alt.None? || i.alt.value == "" ==> a == i.title
  {
    match i.alt
    case Some(s) => if s != "" then s else i.title
    case None => i.title
  }

  /** The gallery item for one phase item: its image, its caption as text, and its alt text. */
  function ToFlat(i: PhaseItem): GalleryItem
  {
    GalleryItem(i.image, i.caption, Some(AltText(i)))
  }

  /** The gallery items of one phase, in order. */
  function FlatPhase(p: Phase): (r: seq<GalleryItem>)
    ensures |r| == |p.items|
    ensures forall k :: 0 <= k < |r| ==> r[k] == ToFlat(p.items[k])
  {
    seq(|p.items|, k requires 0 <= k < |p.items| => ToFlat(p.items[k]))
  }

  /** The items of the first `n` phases, phase by phase. */
  function FlatPrefix(phases: seq<Phase>, n: nat): seq<GalleryItem>
    requires n <= |phases|
    decreases n
  {
    if n == 0 then [] else FlatPrefix(phases, n - 1) + FlatPhase(phases[n - 1])
  }

  /** `flatItems`: every phase's items, phase by phase and then item by item. */
  function FlatItems(phases: seq<Phase>): seq<GalleryItem>
  {
    FlatPrefix(phases, |phases|)
  }

  /** Number of items in the first `n` phases. */
  function Cum(phases: seq<Phase>, n: nat): nat
    requires n <= |phases|
    decreases n
  {
    if n == 0 then 0 else Cum(phases, n - 1) + |phases[n - 1].items|
  }

  /** Number of items in all phases. */
  function Total(phases: seq<Phase>): nat
  {
    Cum(phases, |phases|)
  }

  /** The first `n` phases flatten to exactly as many items as they hold. */
  lemma {:induction false} FlatPrefixLength(phases: seq<Phase>, n: nat)
    requires n <= |phases|
    ensures |FlatPrefix(phases, n)| == Cum(phases, n)
    decreases n
  {
    if n > 0 {
      FlatPrefixLength(phases, n - 1);
    }
  }

  /** Item `k` of phase `p` lands at position `Cum(phases, p) + k` of the flat list. */
  lemma {:induction false} FlatPrefixAt(phases: seq<Phase>, n: nat, p: nat, k: nat)
    requires p < n <= |phases| && k < |phases[p].items|
    ensures Cum(phases, p) + k < |FlatPrefix(phases, n)|
    ensures FlatPrefix(phases, n)[Cum(phases, p) + k] == ToFlat(phases[p].items[k])
    decreases n
  {
    FlatPrefixLength(phases, n);
    FlatPrefixLength(phases, n - 1);
    var prev := FlatPrefix(phases, n - 1);
    var last := FlatPhase(phases[n - 1]);
    assert FlatPrefix(phases, n) == prev + last;
    if p < n - 1 {
      FlatPrefixAt(phases, n - 1, p, k);
      assert (prev + last)[Cum(phases, p) + k] == prev[Cum(phases, p) + k];
    } else {
      assert (prev + last)[Cum(phases, p) + k] == last[k];
    }
  }

  /** `flatItems` has one entry per phase item, and the entry for item `k` of phase
      `p` sits after all items of the earlier phases. */
  lemma FlatItemsLayout(phases: seq<Phase>, p: nat, k: nat)
    requires p < |phases| && k < |phases[p].items|
    ensures |FlatItems(phases)| == Total(phases)
    ensures Cum(phases, p) + k < Total(phases)
    ensures FlatItems(phases)[Cum(phases, p) + k] == ToFlat(phases[p].items[k])
  {
    FlatPrefixLength(phases, |phases|);
    FlatPrefixAt(phases, |phases|, p, k);
  }

  /** The item count never falls as phases are added. */
  lemma {:induction false} CumMonotone(phases: seq<Phase>, m: nat, n: nat)
    requires m <= n <= |phases|
    ensures Cum(phases, m) <= Cum(phases, n)
    decreases n
  {
    if m < n {
      CumMonotone(phases, m, n - 1);
    }
  }

  // ---------------------------------------------------------------------------
  // Index to phase

  /** The running item count once phase `q` is done. */
  function End(phases: seq<Phase>, q: nat): (e: nat)
    requires q < |phases|
    ensures e == Cum(phases, q + 1)
  {
    Cum(phases, q) + |phases[q].items|
  }

  /** Phase `p` is the first one whose running item count passes `idx`. */
  ghost predicate IsPhaseOf(phases: seq<Phase>, idx: int, p: nat)
  {
    && p < |phases|
    && idx < End(phases, p)
    && forall q :: 0 <= q < p ==> End(phases, q) <= idx
  }

  /** The fallback past the last item: the last phase's name, or `""` with no phases. */
  function LastName(phases: seq<Phase>): string
  {
    if |phases| == 0 then "" else phases[|phases| - 1].name
  }

  /** `indexToPhase`: scan the phases with a running item count and return the
      first phase that reaches past `idx`. */
  method IndexToPhase(phases: seq<Phase>, idx: int) returns (name: string)
    ensures forall p: nat :: IsPhaseOf(phases, idx, p) ==> name == phases[p].name
    ensures (forall p: nat :: !IsPhaseOf(phases, idx, p)) ==> name == LastName(phases)
    ensures idx >= Total(phases) ==> name == LastName(phases)
  {
    var count := 0;
    var p := 0;
    while p < |phases|
      invariant 0 <= p <= |phases|
      invariant count == Cum(phases, p)
      invariant forall q :: 0 <= q < p ==> End(phases, q) <= idx
    {
      var next := count + |phases[p].items|;
      assert next == End(phases, p);
      if idx < next {
        assert IsPhaseOf(phases, idx, p);
        forall p': nat | IsPhaseOf(phases, idx, p')
          ensures p' == p
        {
          PhaseOfUnique(phases, idx, p, p');
        }
        CumMonotone(phases, p + 1, |phases|);
        return phases[p].name;
      }
      count := next;
      p := p + 1;
    }
    name := LastName(phases);
  }

  /** At most one phase is the first to pass a given index. */
  lemma PhaseOfUnique(phases: seq<Phase>, idx: int, p1: nat, p2: nat)
    requires IsPhaseOf(phases, idx, p1) && IsPhaseOf(phases, idx, p2)
    ensures p1 == p2
  {
  }

  /** The index of a phase item in `flatItems` maps back to that item's phase. */
  lemma ProducingPhase(phases: seq<Phase>, p: nat, k: nat)
    requires p < |phases| && k < |phases[p].items|
    ensures IsPhaseOf(phases, Cum(phases, p) + k, p)
  {
    forall q | 0 <= q < p
      ensures End(phases, q) <= Cum(phases, p) + k
    {
      CumMonotone(phases, q + 1, p);
    }
  }

  /** Every index of `flatItems` has a phase, and that phase produced the item there. */
  lemma {:induction false} InRangeHasPhase(phases: seq<Phase>, idx: int, n: nat)
    requires n <= |phases| && 0 <= idx < Cum(phases, n)
    ensures exists p: nat :: p < n && IsPhaseOf(phases, idx, p) && Cum(phases, p) <= idx
    decreases n
  {
    if idx < Cum(phases, n - 1) {
      InRangeHasPhase(phases, idx, n - 1);
    } else {
      var p := n - 1;
      var k := idx - Cum(phases, p);
      ProducingPhase(phases, p, k);
    }
  }

  /** For every index of `flatItems`, the phase found is the one whose item sits there. */
  lemma PhaseOfFlatItem(phases: seq<Phase>, idx: int)
    requires 0 <= idx < |FlatItems(phases)|
    ensures exists p: nat :: IsPhaseOf(phases, idx, p) && Cum(phases, p) <= idx &&
              FlatItems(phases)[idx] == ToFlat(phases[p].items[idx - Cum(phases, p)])
  {
    FlatPrefixLength(phases, |phases|);
    InRangeHasPhase(phases, idx, |phases|);
    var p: nat :| p < |phases| && IsPhaseOf(phases, idx, p) && Cum(phases, p) <= idx;
    FlatItemsLayout(phases, p, idx - Cum(phases, p));
  }

  /** A phase with no items is never the phase of a valid index. */
  lemma FoundPhaseHasItems(phases: seq<Phase>, idx: int, p: nat)
    requires idx >= 0 && IsPhaseOf(phases, idx, p)
    ensures |phases[p].items| > 0
  {
    if p > 0 {
      assert End(phases, p - 1) <= idx;
    }
  }
}
