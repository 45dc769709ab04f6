/**
  The navigation shell of app/dashboard/layout.tsx: the fixed table of
  navigation items, the rule that marks an item active for the current
  pathname, the bottom bar's share of the table, and the two menu flags.
*/
module Dashboard {

  datatype NavItem = NavItem(href: string, caption: string, description: string)

  const Root := "/dashboard"

  /**
    The navigation table, in display order (icons are left out): six links, the
    overview first, every one of them inside the dashboard and no two alike.
  */
  function NavItems(): (items: seq<NavItem>)
    ensures |items| == 6 && items[0].href == Root
    ensures forall i :: 0 <= i < |items| ==> Root <= items[i].href
    ensures forall i, j :: 0 <= i < j < |items| ==> items[i].href != items[j].href && items[i].caption != items[j].caption
  {
    [
      NavItem("/dashboard", "Hem", "Översikt och statistik"),
      NavItem("/dashboard/workouts", "Träning", "Dina träningspass"),
      NavItem("/dashboard/meals", "Mat", "Måltidsplaner"),
      NavItem("/dashboard/progress", "Framsteg", "Din utveckling"),
      NavItem("/dashboard/profile", "Profil", "Inställningar"),
      NavItem("/dashboard/subscription", "Prenumeration", "Din plan")
    ]
  }

  /**
    Whether the link to `href` is highlighted: the overview only on exactly its
    own path, every other link whenever the pathname starts with its href
    (a plain string prefix, with no check for a "/" after it).
  */
  function IsActiveRoute(pathname: string, href: string): (r: bool)
    ensures r ==> href <= pathname
    ensures href == Root ==> (r <==> pathname == Root)
    ensures href != Root ==> (r <==> href <= pathname)
  {
    if href == Root then pathname == Root else href <= pathname
  }

  /** Because the prefix test ignores path segments, "/dashboard/mealsX" lights up "Mat". */
  lemma PrefixIgnoresSegments()
    ensures IsActiveRoute("/dashboard/mealsX", NavItems()[2].href)
  {
    assert NavItems()[2].href == "/dashboard/mealsX"[..16];
  }

  lemma NotPrefix(a: string, b: string, k: nat)
    requires k < |a| && k < |b| && a[k] != b[k]
    ensures !(a <= b) && !(b <= a)
  {
  }

  /** Two hrefs of the table other than the overview are never prefixes of one another. */
  lemma HrefsPrefixFree(i: nat, j: nat)
    requires 1 <= i < |NavItems()| && 1 <= j < |NavItems()| && i != j
    ensures !(NavItems()[i].href <= NavItems()[j].href)
  {
    var a, b := NavItems()[i].href, NavItems()[j].href;
    if {i, j} == {3, 4} {
      NotPrefix(a, b, 14);
    } else {
      NotPrefix(a, b, 11);
    }
  }

  /** For any pathname at most one navigation item is highlighted. */
  lemma AtMostOneActive(pathname: string, i: nat, j: nat)
    requires i < |NavItems()| && j < |NavItems()|
    requires IsActiveRoute(pathname, NavItems()[i].href) && IsActiveRoute(pathname, NavItems()[j].href)
    ensures i == j
  {
    if i != j {
      var a, b := NavItems()[i].href, NavItems()[j].href;
      // The overview needs the pathname to be "/dashboard", shorter than every other href,
      // so only two of the other items could clash.
      if i != 0 && j != 0 {
        // Two prefixes of one pathname: the shorter is a prefix of the longer.
        assert a == pathname[..|a|] && b == pathname[..|b|];
        if |a| <= |b| {
          assert a == b[..|a|];
          HrefsPrefixFree(i, j);
        } else {
          assert b == a[..|b|];
          HrefsPrefixFree(j, i);
        }
      }
    }
  }

  /** The mobile bottom bar: `navItems.slice(0, 4)`. */
  function BottomNavItems(): (r: seq<NavItem>)
    ensures |r| == 4 && forall i :: 0 <= i < 4 ==> r[i] == NavItems()[i]
    ensures NavItems()[4] !in r && NavItems()[5] !in r
  {
    NavItems()[..4]
  }

  /** Where a click lands, as far as the two menus are concerned. */
  datatype ClickTarget =
    | MenuButton    // the hamburger button, which lets the click bubble to the document
    | Avatar        // the profile button, which stops propagation
    | Overlay       // the dark backdrop of the open mobile menu
    | OverlayPanel  // the panel inside the backdrop, which stops propagation
    | Elsewhere     // any other spot of the document

  /** The layout's state: the current pathname and the two menu flags. */
  class DashboardLayout {
    var pathname: string
    var isMobileMenuOpen: bool
    var isProfileMenuOpen: bool

    /** Mounting: both menus start closed (and the pathname effect closes them again). */
    constructor (path: string)
      ensures pathname == path && !isMobileMenuOpen && !isProfileMenuOpen
    {
      pathname := path;
      isMobileMenuOpen := false;
      isProfileMenuOpen := false;
    }

    /** The effect on `pathname`: a new route closes both menus; the same route changes nothing. */
    method Navigate(path: string)
      modifies this
      ensures pathname == path
      ensures path != old(pathname) ==> !isMobileMenuOpen && !isProfileMenuOpen
      ensures path == old(pathname) ==>
                isMobileMenuOpen == old(isMobileMenuOpen) && isProfileMenuOpen == old(isProfileMenuOpen)
    {
      if path != pathname {
        isMobileMenuOpen := false;
        isProfileMenuOpen := false;
      }
      pathname := path;
    }

    /**
      A click: first the element's own handler, then, unless it stopped
      propagation, the document-level listener that closes the profile menu.
      The backdrop and its panel are only rendered while the mobile menu is open.
    */
    method Click(target: ClickTarget)
      requires target == Overlay || target == OverlayPanel ==> isMobileMenuOpen
      modifies this
      ensures pathname == old(pathname)
      ensures isMobileMenuOpen == match target
                                  case MenuButton => !old(isMobileMenuOpen)
                                  case Overlay => false
                                  case _ => old(isMobileMenuOpen)
      ensures isProfileMenuOpen == match target
                                   case Avatar => !old(isProfileMenuOpen)
                                   case OverlayPanel => old(isProfileMenuOpen)
                                   case _ => false
    {
      match target {
        case MenuButton => isMobileMenuOpen := !isMobileMenuOpen;
        case Avatar => isProfileMenuOpen := !isProfileMenuOpen;
        case Overlay => isMobileMenuOpen := false;
        case OverlayPanel =>
        case Elsewhere =>
      }
      var bubbles := target != Avatar && target != OverlayPanel;
      if bubbles {
        isProfileMenuOpen := false;
      }
    }
  }

  /** Opening the profile menu is only ever the avatar's doing. */
  method ProfileMenuOpensOnlyFromAvatar(layout: DashboardLayout, target: ClickTarget)
    requires !layout.isProfileMenuOpen
    requires target == Overlay || target == OverlayPanel ==> layout.isMobileMenuOpen
    modifies layout
    ensures layout.isProfileMenuOpen <==> target == Avatar
  {
    layout.Click(target);
  }

  /** While the mobile menu is closed, any click that reaches a rendered element other than the avatar closes the profile menu. */
  method ClickClosesProfileMenu(layout: DashboardLayout, target: ClickTarget)
    requires !layout.isMobileMenuOpen && target != Avatar
    requires target == Overlay || target == OverlayPanel ==> layout.isMobileMenuOpen
    modifies layout
    ensures !layout.isProfileMenuOpen && !layout.isMobileMenuOpen == (target != MenuButton)
  {
    layout.Click(target);
  }
}
