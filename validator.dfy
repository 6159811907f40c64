/** The rule table and the layout check (src/main.rs:18-24, 31-58). */
module Validator {
  import opened Wrappers

  /** The layouts a call requires its image to be in, at its source and at
      its destination end. `None` is a set that was never configured. */
  datatype Layout = Layout(src: Option<set<string>>, dst: Option<set<string>>)

  datatype LayoutErr = Src | Dst

  /** Function name, without the `vk` prefix, to its rule. */
  type Rules = map<string, Layout>

  const CopyBufferToImage := "CmdCopyBufferToImage"

  const CopyBufferToImageDst: set<string> := {
    "VK_IMAGE_LAYOUT_GENERAL",
    "VK_IMAGE_LAYOUT_TRANSFER_DST_OPTIMAL",
    "VK_IMAGE_LAYOUT_SHARED_PRESENT_KHR"
  }

  /** The compiled-in table: one rule, with no source set. */
  function LoadRules(): (rules: Rules)
    ensures rules.Keys == {CopyBufferToImage}
    ensures rules[CopyBufferToImage].src.None?
    ensures rules[CopyBufferToImage].dst == Some(CopyBufferToImageDst)
  {
    map[CopyBufferToImage := Layout(None, Some(CopyBufferToImageDst))]
  }

  /** `current` is in the configured set `s`; an unconfigured set holds nothing. */
  predicate Admits(s: Option<set<string>>, current: string) {
    s.Some? && current in s.value
  }

  /** `check_layout`: the source set is checked first, then the destination
      set, and a set that is `None` fails its check. */
  function CheckLayout(layout: Layout, current: string): (r: Result<(), LayoutErr>)
    ensures r.Ok? <==> Admits(layout.src, current) && Admits(layout.dst, current)
    ensures r == Err(Src) <==> !Admits(layout.src, current)
    ensures r == Err(Dst) <==> Admits(layout.src, current) && !Admits(layout.dst, current)
  {
    var _ :- layout.src.Filter(s => current in s).OkOr(Src);
    var _ :- layout.dst.Filter(d => current in d).OkOr(Dst);
    Ok(())
  }

  /** A rule whose source set is unconfigured fails with `Src` whatever its
      destination set holds. */
  lemma UnconfiguredSrcNeverPasses(layout: Layout, current: string)
    requires layout.src.None?
    ensures CheckLayout(layout, current) == Err(Src)
  {
  }

  /** The table holds only `CmdCopyBufferToImage`, and that rule rejects every
      layout at its source check: no call can pass validation. */
  lemma NoRulePasses(current: string)
    ensures LoadRules().Keys == {CopyBufferToImage}
    ensures forall name :: name in LoadRules() ==> CheckLayout(LoadRules()[name], current) == Err(Src)
  {
    UnconfiguredSrcNeverPasses(LoadRules()[CopyBufferToImage], current);
  }
}
