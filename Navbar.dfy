/** The navigation bar's two links and their styles: a link is active when the
    current path starts with its target, and an active link's button styles
    gain the primary colour. */
module Navbar {
  import opened Strings
  import opened Wrappers
  import Theme

  datatype NavLink = NavLink(href: string, navLabel: string)

  const Links: seq<NavLink> := [NavLink("/recipes", "Recipes"), NavLink("/favorites", "Favorites")]

  /** `router.asPath.startsWith(link.href)` for each link, in order. */
  function ActiveFlags(asPath: string): (flags: seq<bool>)
    ensures |flags| == |Links|
    ensures forall i :: 0 <= i < |Links| ==> (flags[i] <==> StartsWith(asPath, Links[i].href))
  {
    seq(|Links|, i requires 0 <= i < |Links| => StartsWith(asPath, Links[i].href))
  }

  /** No path activates both links: their targets differ in their second
      character. */
  lemma AtMostOneActive(asPath: string)
    ensures !(ActiveFlags(asPath)[0] && ActiveFlags(asPath)[1])
  {
    if ActiveFlags(asPath)[0] {
      assert asPath[1] == Links[0].href[1] == 'r';
    }
  }

  /** A recipe's page keeps the recipes link active, the favourites page the
      favourites link, and the home page neither. */
  lemma ActiveLinkExamples()
    ensures ActiveFlags("/recipes/42") == [true, false]
    ensures ActiveFlags("/favorites") == [false, true]
    ensures ActiveFlags("/") == [false, false]
  {
    AtMostOneActive("/recipes/42");
    assert "/recipes/42"[..|"/recipes"|] == "/recipes";
    AtMostOneActive("/favorites");
    assert "/favorites"[..|"/favorites"|] == "/favorites";
  }

  /** `NavItem`: the compact and the regular button styles, from the common
      styles of each layout plus the hover colour; when the item is active
      (`isActive` defaults to false) both also get the primary colour. */
  method NavItemStyles(isActive: Option<bool>) returns (compact: map<string, string>, regular: map<string, string>)
    ensures "color" in compact <==> isActive == Some(true)
    ensures "color" in regular <==> isActive == Some(true)
    ensures isActive == Some(true) ==> compact["color"] == Theme.Primary && regular["color"] == Theme.Primary
    ensures compact - {"color"} == map[
              "hoverColor" := Theme.TextPrimaryHover, "width" := "5rem", "height" := "100%",
              "iconSize" := "2.4rem", "fontSize" := "1.6rem"]
    ensures regular - {"color"} == map[
              "gap" := "1.2rem", "fontSize" := "2rem", "hoverColor" := Theme.TextPrimaryHover,
              "height" := "100%", "iconSize" := "3.2rem"]
  {
    var active := isActive.GetOr(false);
    compact := map["hoverColor" := Theme.TextPrimaryHover];
    compact := compact["width" := "5rem"]["height" := "100%"]["iconSize" := "2.4rem"]["fontSize" := "1.6rem"];
    regular := map["gap" := "1.2rem", "fontSize" := "2rem", "hoverColor" := Theme.TextPrimaryHover];
    regular := regular["height" := "100%"]["iconSize" := "3.2rem"];
    if active {
      compact := compact["color" := Theme.Primary];
      regular := regular["color" := Theme.Primary];
    }
  }
}
