/** The transition accumulator (src/main.rs:6-16, 26, 95-124): a three-state
    machine that gathers an old layout, then a new layout, then an image
    pointer, and commits `pointer -> new layout` into the image-layout map. */
module Accumulator {
  import opened Wrappers
  import opened Patterns

  datatype LayoutTransition = LayoutTransition(oldLayout: string, newLayout: string)

  datatype Transition =
    | Empty
    | Old(oldLayout: string)
    | Both(t: LayoutTransition)

  /** Image pointer to the layout it was last moved to. */
  type ImageLayout = map<string, string>

  /** One line through the accumulator: the new state and the new map.
      A miss in `Old` resets to `Empty`; a miss in `Both` keeps `Both`. */
  function Advance(t: Transition, images: ImageLayout, line: string): (r: (Transition, ImageLayout))
    // Empty: an old layout starts a transition, anything else stays Empty.
    ensures t.Empty? ==> r.0 == (if OldLayout(line).Some? then Old(OldLayout(line).value) else Empty)
    // Old: a new layout completes the pair, anything else discards the old layout.
    ensures t.Old? ==> r.0 == (if NewLayout(line).Some? then Both(LayoutTransition(t.oldLayout, NewLayout(line).value)) else Empty)
    // Only a Both state that meets an image pointer touches the map.
    ensures !(t.Both? && ImagePtr(line).Some?) ==> r.1 == images
    ensures t.Both? && ImagePtr(line).None? ==> r.0 == t
    ensures t.Both? && ImagePtr(line).Some? ==>
      var p := ImagePtr(line).value;
      && r.0 == Empty
      && r.1.Keys == images.Keys + {p}
      && r.1[p] == t.t.newLayout
      && forall k :: k in images && k != p ==> r.1[k] == images[k]
  {
    match t
    case Empty =>
      (match OldLayout(line)
       case Some(ol) => (Old(ol), images)
       case None => (Empty, images))
    case Old(ol) =>
      (match NewLayout(line)
       case Some(nl) => (Both(LayoutTransition(ol, nl)), images)
       case None => (Empty, images))
    case Both(lt) =>
      (match ImagePtr(line)
       case Some(ptr) => (Empty, images[ptr := lt.newLayout])
       case None => (Both(lt), images))
  }

  /** Every string the accumulator holds came out of a `\w+` capture, so it is
      a non-empty run of word characters: layouts, pointers and map entries. */
  predicate WordsOnly(t: Transition, images: ImageLayout) {
    && (t.Old? ==> IsWord(t.oldLayout))
    && (t.Both? ==> IsWord(t.t.oldLayout) && IsWord(t.t.newLayout))
    && forall p :: p in images ==> IsWord(p) && IsWord(images[p])
  }

  lemma AdvanceKeepsWords(t: Transition, images: ImageLayout, line: string)
    requires WordsOnly(t, images)
    ensures WordsOnly(Advance(t, images, line).0, Advance(t, images, line).1)
  {
  }
}
