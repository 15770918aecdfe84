/** `src/components/layout/BoardSidebar.tsx`: the board's navigation drawer and which of its items is
    highlighted for the current path. */
module BoardSidebar {
  import opened Text

  datatype NavItem = NavItem(caption: string, href: string)

  const Overview := "/board"

  const NavItems: seq<NavItem> := [
    NavItem("Overview", "/board"),
    NavItem("Announcements", "/board/announcements"),
    NavItem("Call Notes", "/board/call-notes"),
    NavItem("Notifications", "/board/notifications"),
    NavItem("Residents", "/board/residents"),
    NavItem("Payments", "/board/payments"),
    NavItem("Documents", "/board/documents"),
    NavItem("Form Submissions", "/board/form-submissions")
  ]

  /** `isActive`: Overview only on '/board' itself, every other item on any path under its href. */
  predicate IsActive(pathname: string, href: string) {
    if href == Overview then pathname == Overview else StartsWith(pathname, href)
  }

  /** The Overview item is highlighted exactly on '/board'; in particular not on the sub-pages it
      is a prefix of. */
  lemma OverviewActiveIff(pathname: string)
    ensures IsActive(pathname, NavItems[0].href) <==> pathname == "/board"
  {
  }

  /** Any other item is highlighted exactly when the path starts with its href. */
  lemma OtherActiveIff(pathname: string, i: nat)
    requires 1 <= i < |NavItems|
    ensures IsActive(pathname, NavItems[i].href) <==> NavItems[i].href <= pathname
  {
    assert NavItems[i].href != Overview by {
      assert |NavItems[i].href| > |Overview|;
    }
  }

  /** The other hrefs are '/board/' followed by distinct first letters. */
  lemma HrefsDifferAtSeven(i: nat, j: nat)
    requires 1 <= i < |NavItems| && 1 <= j < |NavItems| && i != j
    ensures |NavItems[i].href| > 7 && |NavItems[j].href| > 7
    ensures NavItems[i].href[7] != NavItems[j].href[7]
  {
  }

  /** However the path looks, at most one item is highlighted. */
  lemma AtMostOneActive(pathname: string, i: nat, j: nat)
    requires i < |NavItems| && j < |NavItems| && i != j
    ensures !(IsActive(pathname, NavItems[i].href) && IsActive(pathname, NavItems[j].href))
  {
    if i == 0 || j == 0 {
      var k := if i == 0 then j else i;
      OtherActiveIff(pathname, k);
      OverviewActiveIff(pathname);
      assert |NavItems[k].href| > |Overview|;
    } else {
      OtherActiveIff(pathname, i);
      OtherActiveIff(pathname, j);
      HrefsDifferAtSeven(i, j);
    }
  }

  /** On a resident's own page the Residents item is highlighted and Overview is not. */
  lemma ResidentSubPage()
    ensures IsActive("/board/residents/x", NavItems[4].href)
    ensures !IsActive("/board/residents/x", NavItems[0].href)
  {
    assert NavItems[4].href == "/board/residents/x"[..16];
  }
}
