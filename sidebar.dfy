/** The navigation sidebar of src/common/components/global/Main.tsx: which
    sections it lists for a user, which entry it marks active, and the
    collapse flag the mouse toggles. */
module Sidebar {
  import opened Wrappers
  import opened Strings
  import opened Security
  import Middleware

  /** `s.filter(keep)`. */
  function Filter<T>(s: seq<T>, keep: T -> bool): (r: seq<T>)
    ensures |r| <= |s|
    ensures forall i :: 0 <= i < |r| ==> keep(r[i]) && r[i] in s
  {
    if |s| == 0 then []
    else if keep(s[0]) then [s[0]] + Filter(s[1..], keep)
    else Filter(s[1..], keep)
  }

  /** The filter keeps every copy of a kept element and drops every copy of
      the others, so duplicates survive with their multiplicity. */
  lemma {:induction false} FilterMultiplicity<T>(s: seq<T>, keep: T -> bool, x: T)
    ensures multiset(Filter(s, keep))[x] == if keep(x) then multiset(s)[x] else 0
    decreases |s|
  {
    if |s| > 0 {
      FilterMultiplicity(s[1..], keep, x);
      assert s == [s[0]] + s[1..];
    }
  }

  /** An element survives the filter exactly when it is in the input and kept. */
  lemma {:induction false} FilterMembership<T>(s: seq<T>, keep: T -> bool, x: T)
    ensures x in Filter(s, keep) <==> x in s && keep(x)
    decreases |s|
  {
    if |s| > 0 {
      FilterMembership(s[1..], keep, x);
      assert s == [s[0]] + s[1..];
    }
  }

  /** `a` is `b` with some elements left out, the rest in their order. */
  ghost predicate IsSubsequence<T>(a: seq<T>, b: seq<T>)
    decreases |b|
  {
    if a == [] then true
    else if b == [] then false
    else (a[0] == b[0] && IsSubsequence(a[1..], b[1..])) || IsSubsequence(a, b[1..])
  }

  /** The sections the role may open (Main.tsx:15-19). */
  function AuthorizedSections(sections: seq<Section>, role: Role): (r: seq<Section>)
    ensures |r| <= |sections|
    ensures forall i :: 0 <= i < |r| ==> role in r[i].authorizedRoles && r[i] in sections
  {
    Filter(sections, (s: Section) => role in s.authorizedRoles)
  }

  /** The sections the sidebar lists (Main.tsx:36-37). */
  function SidebarSections(sections: seq<Section>, role: Role): (r: seq<Section>)
    ensures |r| <= |sections|
    ensures forall i :: 0 <= i < |r| ==> role in r[i].authorizedRoles && r[i].showInSidebar
  {
    Filter(AuthorizedSections(sections, role), (s: Section) => s.showInSidebar)
  }

  /** A section is listed exactly when the role may open it and it is flagged
      for the sidebar. */
  lemma ListedIff(sections: seq<Section>, role: Role, s: Section)
    ensures s in SidebarSections(sections, role) <==>
              s in sections && role in s.authorizedRoles && s.showInSidebar
  {
    FilterMembership(AuthorizedSections(sections, role), (s: Section) => s.showInSidebar, s);
    FilterMembership(sections, (s: Section) => role in s.authorizedRoles, s);
  }

  /** The listed sections keep their order in the section table. */
  lemma {:induction false} ListedInOrder(sections: seq<Section>, role: Role)
    ensures IsSubsequence(SidebarSections(sections, role), sections)
    decreases |sections|
  {
    if |sections| > 0 {
      ListedInOrder(sections[1..], role);
      var listed := SidebarSections(sections, role);
      var rest := SidebarSections(sections[1..], role);
      var x := sections[0];
      if role in x.authorizedRoles && x.showInSidebar {
        assert AuthorizedSections(sections, role) == [x] + AuthorizedSections(sections[1..], role);
        assert listed == [x] + rest;
        assert listed[1..] == rest;
      } else if role in x.authorizedRoles {
        assert AuthorizedSections(sections, role) == [x] + AuthorizedSections(sections[1..], role);
        assert listed == rest;
        SubsequenceOfTail(rest, sections);
      } else {
        assert listed == rest;
        SubsequenceOfTail(rest, sections);
      }
    }
  }

  /** A subsequence of the tail is a subsequence of the whole. */
  lemma SubsequenceOfTail<T>(a: seq<T>, b: seq<T>)
    requires |b| > 0 && IsSubsequence(a, b[1..])
    ensures IsSubsequence(a, b)
  {
  }

  /** One rendered sidebar link. */
  datatype Link = Link(name: string, href: string, active: bool, labelVisible: bool)

  /** The links rendered for `current`, the section the page belongs to
      (Main.tsx:36-51). */
  function Links(sections: seq<Section>, role: Role, current: string, collapsed: bool): (r: seq<Link>)
    ensures var listed := SidebarSections(sections, role);
            && |r| == |listed|
            && forall i :: 0 <= i < |r| ==>
                 && r[i].name == listed[i].name && r[i].href == listed[i].href
                 && (r[i].active <==> listed[i].name == current)
                 && r[i].labelVisible != collapsed
  {
    var listed := SidebarSections(sections, role);
    seq(|listed|, i requires 0 <= i < |listed| =>
      Link(listed[i].name, listed[i].href, listed[i].name == current, !collapsed))
  }

  const CollapsedLogo: string := "/img/logo-blue-1.svg"
  const ExpandedLogo: string := "/img/logo-blue.svg"

  /** The `sidebarCollapsed` state of one mounted sidebar. */
  class SidebarState {
    var collapsed: bool

    /** The sidebar mounts collapsed (Main.tsx:20). */
    constructor ()
      ensures collapsed
    {
      collapsed := true;
    }

    /** The mouse enters the sidebar (Main.tsx:27). */
    method MouseEnter()
      modifies this
      ensures !collapsed
    {
      collapsed := false;
    }

    /** The mouse leaves the sidebar (Main.tsx:28). */
    method MouseLeave()
      modifies this
      ensures collapsed
    {
      collapsed := true;
    }

    /** The logo shown: the compact one exactly while collapsed (Main.tsx:32). */
    function Logo(): (src: string)
      reads this
      ensures src == CollapsedLogo || src == ExpandedLogo
      ensures src == CollapsedLogo <==> collapsed
    {
      "/img/" + (if collapsed then "logo-blue-1" else "logo-blue") + ".svg"
    }
  }

  // ---------------------------------------------------------------------
  // The sidebar against the gate

  /** No entry is shadowed by an earlier one: whenever an earlier href is a
      prefix of a later one, the earlier entry allows every role the later
      one allows. */
  ghost predicate NoShadowing(sections: seq<Section>)
  {
    forall i, j, r ::
      (0 <= i < j < |sections| && StartsWith(sections[j].href, sections[i].href)
       && r in sections[j].authorizedRoles) ==> r in sections[i].authorizedRoles
  }

  /** Under NoShadowing, following a listed sidebar link never ends at the
      gate's not-found redirect: either the matcher keeps the request away
      from the gate or the gate lets it through. */
  lemma ListedSectionReachable(sections: seq<Section>, actions: Middleware.ActionTable, role: Role, s: Section)
    requires NoShadowing(sections)
    requires s in SidebarSections(sections, role)
    requires s.href != "/" && !StartsWith(s.href, "/api")
    ensures !Middleware.Matched(s.href) || Middleware.Decide(s.href, Some(role), sections, actions) == Middleware.Next
  {
    ListedIff(sections, role, s);
    if s.href in Middleware.PublicPages {
      Middleware.MatcherExcludesPublicPages(s.href);
    } else {
      var j :| 0 <= j < |sections| && sections[j] == s;
      assert s.href[..|s.href|] == s.href;
      assert StartsWith(s.href, sections[j].href);
      match Middleware.FirstMatch(sections, s.href)
      case Some(i) =>
        assert i <= j;
      case None =>
        assert false;
    }
  }

  /** Without NoShadowing the promise fails: an earlier `/offers` entry for one
      role shadows a later `/offers/mine` entry for another, so the sidebar
      lists a link whose page the gate refuses. */
  lemma ShadowedSectionRefused(sections: seq<Section>, actions: Middleware.ActionTable, s: Section)
    requires s == Section("My offers", "/offers/mine", [Customer], true)
    requires sections == [Section("Offers", "/offers", [Tandeem], true), s]
    ensures s in SidebarSections(sections, Customer)
    ensures Middleware.Matched(s.href)
    ensures Middleware.Decide(s.href, Some(Customer), sections, actions) == Middleware.Redirect(Middleware.NotFound)
  {
    ListedIff(sections, Customer, s);
    Middleware.MatcherAdmitsByFirstChar(s.href);
    assert s.href[..|sections[0].href|] == sections[0].href;
    assert s.href !in Middleware.PublicPages by {
      assert s.href[1] == 'o';
    }
    assert !StartsWith(s.href, "/api") by {
      assert s.href[1] == 'o';
    }
  }

}
