/** The side drawer: the accordion of submenus (`openMenus`), the collapse
    flag, the mobile open flag and the drawer's width and variant. */
module Navigation {

  /** `openMenus[key]` is truthy: the key is present and set to true. */
  predicate IsOpen(openMenus: map<string, bool>, key: string) {
    key in openMenus && openMenus[key]
  }

  /** At most one submenu is open. */
  ghost predicate AtMostOneOpen(openMenus: map<string, bool>) {
    forall a, b :: IsOpen(openMenus, a) && IsOpen(openMenus, b) ==> a == b
  }

  /** Every key already present, set to false. */
  function AllClosed(prev: map<string, bool>): (r: map<string, bool>)
    ensures r.Keys == prev.Keys
    ensures forall k :: k in r ==> !r[k]
  {
    map k | k in prev :: false
  }

  /** The `forEach` that builds `newState`: every existing key set to false. */
  method CloseAll(prev: map<string, bool>) returns (newState: map<string, bool>)
    ensures newState.Keys == prev.Keys
    ensures forall k :: k in newState ==> !newState[k]
  {
    newState := map[];
    var rest := prev.Keys;
    while rest != {}
      invariant rest <= prev.Keys
      invariant newState.Keys == prev.Keys - rest
      invariant forall k :: k in newState ==> !newState[k]
      decreases rest
    {
      var k :| k in rest;
      newState := newState[k := false];
      rest := rest - {k};
    }
  }

  /** The state updater handleSubmenuClick applies when the drawer is expanded:
      an open submenu is closed; a closed one is opened and all others closed. */
  function ClickExpanded(prev: map<string, bool>, key: string): map<string, bool> {
    if IsOpen(prev, key) then prev[key := false] else AllClosed(prev)[key := true]
  }

  /** Clicking an open submenu closes it and leaves every other entry as it was. */
  lemma ClickOpenClosesOnlyIt(prev: map<string, bool>, key: string)
    requires IsOpen(prev, key)
    ensures ClickExpanded(prev, key).Keys == prev.Keys
    ensures !IsOpen(ClickExpanded(prev, key), key)
    ensures forall k :: k in prev && k != key ==> ClickExpanded(prev, key)[k] == prev[k]
  {
  }

  /** Clicking a closed submenu opens it and closes every other existing key. */
  lemma ClickClosedOpensOnlyIt(prev: map<string, bool>, key: string)
    requires !IsOpen(prev, key)
    ensures ClickExpanded(prev, key).Keys == prev.Keys + {key}
    ensures forall k :: IsOpen(ClickExpanded(prev, key), k) <==> k == key
  {
  }

  /** From at most one open submenu, a click while expanded keeps at most one open. */
  lemma ClickKeepsAtMostOneOpen(prev: map<string, bool>, key: string)
    requires AtMostOneOpen(prev)
    ensures AtMostOneOpen(ClickExpanded(prev, key))
  {
    var r := ClickExpanded(prev, key);
    forall a, b | IsOpen(r, a) && IsOpen(r, b)
      ensures a == b
    {
      if IsOpen(prev, key) {
        assert IsOpen(prev, a) && IsOpen(prev, b);
      }
    }
  }

  /** The delayed update scheduled by a click on a collapsed drawer: the key is
      marked open and nothing else is closed. */
  function DelayedOpen(prev: map<string, bool>, key: string): (r: map<string, bool>)
    ensures IsOpen(r, key)
    ensures forall k :: k != key ==> (IsOpen(r, k) <==> IsOpen(prev, k))
  {
    prev[key := true]
  }

  /** Because the delayed open closes nothing, two submenus can end up open. */
  lemma CollapsedClickCanOpenTwo()
    ensures var r := DelayedOpen(map["Configuración" := true], "Venta de Servicios");
            IsOpen(r, "Configuración") && IsOpen(r, "Venta de Servicios") && !AtMostOneOpen(r)
  {
    var r := DelayedOpen(map["Configuración" := true], "Venta de Servicios");
    assert "Configuración" != "Venta de Servicios";
    assert IsOpen(r, "Configuración") && IsOpen(r, "Venta de Servicios");
  }

  datatype Variant = Temporary | Permanent

  /** The drawer as drawn: variant, whether it is open, and its paper width. */
  datatype Drawer = Drawer(variant: Variant, open: bool, width: int)

  function DrawerLayout(isMobile: bool, mobileOpen: bool, isCollapsed: bool): (d: Drawer)
    ensures d.width == 70 <==> isCollapsed
    ensures d.width == 250 <==> !isCollapsed
    ensures !isMobile ==> d.open && d.variant == Permanent
    ensures isMobile ==> (d.open <==> mobileOpen) && d.variant == Temporary
  {
    Drawer(if isMobile then Temporary else Permanent,
           if isMobile then mobileOpen else true,
           if isCollapsed then 70 else 250)
  }

  /** A submenu's list is drawn only when the drawer is expanded and the menu is open. */
  predicate SubmenuShown(isCollapsed: bool, openMenus: map<string, bool>, key: string) {
    !isCollapsed && IsOpen(openMenus, key)
  }

  /** A collapsed drawer shows no submenu, whatever `openMenus` holds. On an
      expanded drawer a click shows the clicked submenu iff it was closed, and
      any other submenu still shown was shown before. */
  lemma SubmenuVisibility(openMenus: map<string, bool>, key: string)
    ensures forall k :: !SubmenuShown(true, openMenus, k)
    ensures SubmenuShown(false, ClickExpanded(openMenus, key), key) <==> !IsOpen(openMenus, key)
    ensures forall k :: k != key && SubmenuShown(false, ClickExpanded(openMenus, key), k) ==>
              SubmenuShown(false, openMenus, k)
  {
  }

  class NavigationState {
    var mobileOpen: bool
    var isCollapsed: bool
    var openMenus: map<string, bool>
    /** Keys whose 300 ms delayed open is scheduled, oldest first. */
    var pendingOpens: seq<string>

    constructor ()
      ensures !mobileOpen && !isCollapsed && openMenus == map[] && pendingOpens == []
    {
      mobileOpen := false;
      isCollapsed := false;
      openMenus := map[];
      pendingOpens := [];
    }

    /** handleDrawerToggle. */
    method DrawerToggle()
      modifies this
      ensures mobileOpen == !old(mobileOpen)
      ensures isCollapsed == old(isCollapsed) && openMenus == old(openMenus)
      ensures pendingOpens == old(pendingOpens)
    {
      mobileOpen := !mobileOpen;
    }

    /** toggleDrawerCollapse. */
    method ToggleCollapse()
      modifies this
      ensures isCollapsed == !old(isCollapsed)
      ensures mobileOpen == old(mobileOpen) && openMenus == old(openMenus)
      ensures pendingOpens == old(pendingOpens)
    {
      isCollapsed := !isCollapsed;
    }

    /** handleSubmenuClick: on a collapsed drawer, expand it and schedule the
        delayed open; otherwise apply the accordion rule at once. */
    method SubmenuClick(key: string)
      modifies this
      ensures old(isCollapsed) ==>
                !isCollapsed && openMenus == old(openMenus) && pendingOpens == old(pendingOpens) + [key]
      ensures !old(isCollapsed) ==>
                !isCollapsed && openMenus == ClickExpanded(old(openMenus), key)
                && pendingOpens == old(pendingOpens)
      ensures mobileOpen == old(mobileOpen)
    {
      if isCollapsed {
        isCollapsed := false;
        pendingOpens := pendingOpens + [key];
        return;
      }
      if IsOpen(openMenus, key) {
        openMenus := openMenus[key := false];
      } else {
        var newState := CloseAll(openMenus);
        openMenus := newState[key := true];
        assert openMenus == ClickExpanded(old(openMenus), key);
      }
    }

    /** The oldest scheduled delayed open runs. */
    method TimerFires()
      requires pendingOpens != []
      modifies this
      ensures openMenus == DelayedOpen(old(openMenus), old(pendingOpens)[0])
      ensures pendingOpens == old(pendingOpens)[1..]
      ensures mobileOpen == old(mobileOpen) && isCollapsed == old(isCollapsed)
    {
      openMenus := DelayedOpen(openMenus, pendingOpens[0]);
      pendingOpens := pendingOpens[1..];
    }
  }

  /** Toggling the drawer twice, or collapsing twice, restores the state. */
  method ToggleTwiceRestores(nav: NavigationState)
    modifies nav
    ensures nav.mobileOpen == old(nav.mobileOpen) && nav.isCollapsed == old(nav.isCollapsed)
    ensures nav.openMenus == old(nav.openMenus)
  {
    nav.DrawerToggle();
    nav.DrawerToggle();
    nav.ToggleCollapse();
    nav.ToggleCollapse();
  }
}
