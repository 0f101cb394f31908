/** `actualizarMenuActivo`: on scroll, every section that contains the point
    150 pixels below the top of the viewport clears the `activo` class from
    all in-page menu links and sets it on the first link to that section.
    Layout (offsets and heights) and the scroll position are parameters. */
module NavMenu {
  import opened Wrappers
  import opened JsBuiltins

  datatype Section = Section(top: int, height: int, id: string)

  /** `scrollPos >= top && scrollPos < top + height`. */
  predicate Contains(s: Section, pos: int) {
    s.top <= pos < s.top + s.height
  }

  /** The flags after activating the link to section `id`: only the first
      link to `#id` is set, or none when there is no such link. */
  function OnlyLinkTo(hrefs: seq<string>, id: string): (flags: seq<bool>)
    ensures |flags| == |hrefs|
    ensures forall i :: 0 <= i < |flags| ==> (flags[i] <==> i == IndexOf(hrefs, "#" + id))
  {
    var k := IndexOf(hrefs, "#" + id);
    seq(|hrefs|, i => i == k)
  }

  /** One step of the `forEach` over the sections. */
  function Step(flags: seq<bool>, hrefs: seq<string>, s: Section, pos: int): seq<bool>
    requires |flags| == |hrefs|
  {
    if Contains(s, pos) then OnlyLinkTo(hrefs, s.id) else flags
  }

  /** The flags after visiting `sections` in document order. */
  function Visit(flags: seq<bool>, hrefs: seq<string>, sections: seq<Section>, pos: int): (r: seq<bool>)
    requires |flags| == |hrefs|
    ensures |r| == |hrefs|
  {
    if sections == [] then flags
    else Step(Visit(flags, hrefs, sections[..|sections| - 1], pos), hrefs, sections[|sections| - 1], pos)
  }

  /** Index of the last section containing `pos`, if any. */
  function LastContaining(sections: seq<Section>, pos: int): (r: Option<nat>)
    ensures r.Some? ==>
      r.value < |sections| && Contains(sections[r.value], pos)
      && forall j :: r.value < j < |sections| ==> !Contains(sections[j], pos)
    ensures r.None? ==> forall j :: 0 <= j < |sections| ==> !Contains(sections[j], pos)
  {
    if sections == [] then None
    else if Contains(sections[|sections| - 1], pos) then Some(|sections| - 1)
    else
      var r := LastContaining(sections[..|sections| - 1], pos);
      assert forall j :: 0 <= j < |sections| - 1 ==> sections[..|sections| - 1][j] == sections[j];
      r
  }

  /** The last section that contains the point wins: only its link is
      active afterwards; when no section contains the point the flags are
      left as they were. */
  lemma {:induction false} LastContainingWins(flags: seq<bool>, hrefs: seq<string>,
                                              sections: seq<Section>, pos: int)
    requires |flags| == |hrefs|
    ensures Visit(flags, hrefs, sections, pos) ==
      match LastContaining(sections, pos)
      case None => flags
      case Some(i) => OnlyLinkTo(hrefs, sections[i].id)
  {
    if sections != [] {
      var init := sections[..|sections| - 1];
      LastContainingWins(flags, hrefs, init, pos);
      if !Contains(sections[|sections| - 1], pos) {
        assert LastContaining(sections, pos) == LastContaining(init, pos);
        match LastContaining(init, pos)
        case None =>
        case Some(i) => assert sections[i] == init[i];
      }
    }
  }

  /** After a scan at most one link is active, and when some section
      contains the point, the active link (if any) points to the last such
      section. */
  lemma AtMostOneActive(flags: seq<bool>, hrefs: seq<string>, sections: seq<Section>, pos: int)
    requires |flags| == |hrefs|
    requires exists j :: 0 <= j < |sections| && Contains(sections[j], pos)
    ensures var r := Visit(flags, hrefs, sections, pos);
      forall a, b :: 0 <= a < b < |r| ==> !(r[a] && r[b])
    ensures var r := Visit(flags, hrefs, sections, pos);
      forall a :: 0 <= a < |r| && r[a] ==>
        exists j :: 0 <= j < |sections| && Contains(sections[j], pos)
          && hrefs[a] == "#" + sections[j].id
          && forall k :: j < k < |sections| ==> !Contains(sections[k], pos)
  {
    LastContainingWins(flags, hrefs, sections, pos);
  }

  /** The in-page menu links (`nav a[href^="#"]`) and their `activo`
      flags. */
  class Menu {
    const hrefs: seq<string>
    const activo: array<bool>

    ghost predicate Valid()
      reads this
    {
      activo.Length == |hrefs|
    }

    constructor (links: seq<string>, initial: seq<bool>)
      requires |initial| == |links|
      ensures Valid() && hrefs == links && activo[..] == initial && fresh(activo)
    {
      hrefs := links;
      activo := new bool[|initial|](i requires 0 <= i < |initial| => initial[i]);
    }

    /** The scroll listener, for a page whose sections are `sections` and
        whose viewport top is at `scrollY`. */
    method ActualizarMenuActivo(sections: seq<Section>, scrollY: int)
      requires Valid()
      modifies activo
      ensures activo[..] == Visit(old(activo[..]), hrefs, sections, scrollY + 150)
    {
      var scrollPos := scrollY + 150;
      for n := 0 to |sections|
        invariant activo[..] == Visit(old(activo[..]), hrefs, sections[..n], scrollPos)
      {
        assert sections[..n + 1][..n] == sections[..n];
        var seccion := sections[n];
        if seccion.top <= scrollPos && scrollPos < seccion.top + seccion.height {
          for j := 0 to activo.Length
            invariant forall i :: 0 <= i < j ==> !activo[i]
          {
            activo[j] := false;
          }
          var k := IndexOf(hrefs, "#" + seccion.id);
          if k < activo.Length {
            activo[k] := true;
          }
          assert activo[..] == OnlyLinkTo(hrefs, seccion.id);
        }
      }
      assert sections[..|sections|] == sections;
    }
  }
}
