/** The navigation bar (src/components/navigation.tsx): the four items and
    which of them is highlighted for the current pathname. */
module Navigation {
  import opened Text

  datatype NavItem = NavItem(href: string, labelText: string)

  /** `navItems`, in display order. */
  const NavItems: seq<NavItem> := [
    NavItem("/", "Dashboard"),
    NavItem("/workouts", "Workouts"),
    NavItem("/workouts/new", "Log Workout"),
    NavItem("/exercises", "Exercises")
  ]

  /** `isActive`: an exact match, or a prefix match for any item other than
      "/" and "/workouts/new". */
  predicate IsActive(pathname: string, href: string)
  {
    pathname == href || (href != "/" && StartsWith(pathname, href) && href != "/workouts/new")
  }

  /** The items that are highlighted on `pathname`, in display order. */
  function ActiveItems(pathname: string): (r: seq<NavItem>)
    ensures forall it :: it in r <==> it in NavItems && IsActive(pathname, it.href)
  {
    ActiveInMembers(NavItems, pathname);
    ActiveIn(NavItems, pathname)
  }

  /** The items of `items` highlighted on `pathname`, in order. */
  function ActiveIn(items: seq<NavItem>, pathname: string): seq<NavItem>
  {
    if items == [] then []
    else Pick(pathname, items[0]) + ActiveIn(items[1..], pathname)
  }

  /** The one-item list of `it` when it is highlighted on `p`, else empty. */
  function Pick(p: string, it: NavItem): seq<NavItem>
  {
    if IsActive(p, it.href) then [it] else []
  }

  lemma {:induction false} ActiveInMembers(items: seq<NavItem>, pathname: string)
    ensures forall it :: it in ActiveIn(items, pathname) <==> it in items && IsActive(pathname, it.href)
  {
    if items != [] {
      ActiveInMembers(items[1..], pathname);
      assert items == [items[0]] + items[1..];
    }
  }

  /** Four items with pairwise distinct hrefs. */
  lemma ItemsDistinct()
    ensures |NavItems| == 4
    ensures forall i, j :: 0 <= i < j < |NavItems| ==> NavItems[i].href != NavItems[j].href
  {
  }

  /** "/" and "/workouts/new" are highlighted only on their exact path. */
  lemma ExactItems(pathname: string)
    ensures IsActive(pathname, "/") <==> pathname == "/"
    ensures IsActive(pathname, "/workouts/new") <==> pathname == "/workouts/new"
  {
  }

  /** Any other item is highlighted exactly when the pathname starts with its
      href (so "/workouts" also lights up on "/workouts/123"). */
  lemma PrefixItems(pathname: string, href: string)
    requires href != "/" && href != "/workouts/new"
    ensures IsActive(pathname, href) <==> StartsWith(pathname, href)
  {
    if pathname == href {
      assert pathname[..|href|] == href;
    }
  }

  /** A pathname whose character `k` differs from the href's does not start with it. */
  lemma DiffersAt(pathname: string, href: string, k: nat)
    requires k < |href| && k < |pathname| && pathname[k] != href[k]
    ensures !StartsWith(pathname, href)
  {
  }

  /** A four-item list tested item by item. */
  lemma {:induction false} ActiveInFour(items: seq<NavItem>, p: string)
    requires |items| == 4
    ensures ActiveIn(items, p) == Pick(p, items[0]) + Pick(p, items[1]) + Pick(p, items[2]) + Pick(p, items[3])
  {
    var r3 := ActiveIn(items[3..], p);
    assert items[3..][1..] == [] && r3 == Pick(p, items[3]) + ActiveIn([], p);
    var r2 := ActiveIn(items[2..], p);
    assert items[2..][1..] == items[3..] && r2 == Pick(p, items[2]) + r3;
    var r1 := ActiveIn(items[1..], p);
    assert items[1..][1..] == items[2..] && r1 == Pick(p, items[1]) + r2;
    assert ActiveIn(items, p) == Pick(p, items[0]) + r1;
  }

  /** The highlighted items of `p` as the four item tests, one by one. */
  lemma ActiveItemsUnrolled(p: string)
    ensures ActiveItems(p) == Pick(p, NavItems[0]) + Pick(p, NavItems[1]) + Pick(p, NavItems[2]) + Pick(p, NavItems[3])
  {
    ActiveInFour(NavItems, p);
  }

  /** On "/workouts/new" both "Workouts" and "Log Workout" are highlighted. */
  lemma LogWorkoutPage()
    ensures ActiveItems("/workouts/new") == [NavItems[1], NavItems[2]]
  {
    var p := "/workouts/new";
    assert Pick(p, NavItems[0]) == [] by {
      assert p != "/";
    }
    assert Pick(p, NavItems[1]) == [NavItems[1]] by {
      assert p[..|"/workouts"|] == "/workouts";
    }
    assert Pick(p, NavItems[2]) == [NavItems[2]];
    assert Pick(p, NavItems[3]) == [] by {
      DiffersAt(p, "/exercises", 1);
    }
    ActiveItemsUnrolled(p);
  }

  /** On the page of workout `id` only "Workouts" is highlighted. */
  lemma WorkoutDetailPage(id: string)
    requires id != "new"
    ensures ActiveItems("/workouts/" + id) == [NavItems[1]]
  {
    var p := "/workouts/" + id;
    assert Pick(p, NavItems[0]) == [] by {
      assert |p| > 1;
    }
    assert Pick(p, NavItems[1]) == [NavItems[1]] by {
      assert p[..|"/workouts"|] == "/workouts";
    }
    assert Pick(p, NavItems[2]) == [] by {
      assert p[10..] == id && "/workouts/new"[10..] == "new";
    }
    assert Pick(p, NavItems[3]) == [] by {
      DiffersAt(p, "/exercises", 1);
    }
    ActiveItemsUnrolled(p);
  }
}
