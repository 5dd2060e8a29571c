/** The clean-up of a curriculum's skills: canonical categories, collapsed items, and merging without
    case-insensitive repeats. */
module Skills {
  import opened Text
  import opened Domain

  datatype Group = Group(category: string, items: seq<string>)

  // ---- categories ----

  const ORDER: seq<string> := ["frontend", "backend", "mobile", "devops", "cloud", "data", "tools", "soft", "other"]

  /** The alias map, grouped by the category it leads to. */
  function Alias(key: string): Option<string> {
    if key in ["frontend", "front-end", "front end", "front", "ui", "web"] then Some("frontend")
    else if key in ["backend", "back-end", "back end", "back", "server", "api"] then Some("backend")
    else if key in ["mobile", "android", "ios"] then Some("mobile")
    else if key in ["devops", "sre", "infra", "infrastructure", "ops", "platform"] then Some("devops")
    else AliasMore(key)
  }

  function AliasMore(key: string): Option<string> {
    if key in ["cloud", "aws", "gcp", "azure"] then Some("cloud")
    else if key in ["data", "ml", "ai", "analytics", "database", "databases"] then Some("data")
    else if key in ["tools", "tooling", "productivity"] then Some("tools")
    else if key in ["soft", "soft skills", "softskills", "interpersonal"] then Some("soft")
    else if key in ["other", "misc", "general", "languages", "programming languages", "linguagens"] then Some("other")
    else None
  }

  predicate IsCategory(c: string) { exists k :: 0 <= k < |ORDER| && ORDER[k] == c }

  lemma AliasValues(key: string)
    requires Alias(key).Some?
    ensures IsCategory(Alias(key).value)
  {
    assert ORDER[0] == "frontend" && ORDER[1] == "backend" && ORDER[2] == "mobile" && ORDER[3] == "devops"
      && ORDER[4] == "cloud";
    assert ORDER[5] == "data" && ORDER[6] == "tools" && ORDER[7] == "soft" && ORDER[8] == "other";
  }

  lemma SelfAliases(k: nat)
    requires k < |ORDER|
    ensures Alias(ORDER[k]) == Some(ORDER[k])
  {
  }

  /** The first category, from `k` on, whose name occurs in the key; "other" if there is none. */
  function KnownFrom(key: string, k: nat): (c: string)
    requires k <= |ORDER|
    ensures IsCategory(c)
    decreases |ORDER| - k
  {
    OtherIsCategory();
    if k == |ORDER| then "other" else if Contains(key, ORDER[k]) then ORDER[k] else KnownFrom(key, k + 1)
  }

  lemma OtherIsCategory()
    ensures IsCategory("other")
  {
    assert ORDER[8] == "other";
  }

  /** `canonicalizeSkillCategory`. */
  function Canonical(lower: char -> char, s: string): (c: string)
    ensures IsCategory(c)
  {
    var key := Lower(lower, Collapse(s));
    OtherIsCategory();
    if key == "" then "other"
    else match Alias(key)
      case Some(c) => AliasValues(key); c
      case None => KnownFrom(key, 0)
  }

  /** `canonicalizeSkillCategory` as it is written. */
  method CanonicalizeSkillCategory(lower: char -> char, s: string) returns (c: string)
    ensures c == Canonical(lower, s)
  {
    hide Alias, TrimSpace, Fields, JoinSpace, Lower, Contains;
    FieldsOfTrim(s);
    var key := Lower(lower, Collapse(TrimSpace(s)));
    if key == "" {
      return "other";
    }
    var canon := Alias(key);
    if canon.Some? {
      return canon.value;
    }
    for i := 0 to |ORDER|
      invariant KnownFrom(key, i) == KnownFrom(key, 0)
    {
      if Contains(key, ORDER[i]) {
        return ORDER[i];
      }
    }
    return "other";
  }

  // ---- the table and the scan, stated apart ----

  /** The aliases of every category. */
  const ALIASES: seq<(string, seq<string>)> :=
    [("frontend", ["frontend", "front-end", "front end", "front", "ui", "web"]),
     ("backend", ["backend", "back-end", "back end", "back", "server", "api"]),
     ("mobile", ["mobile", "android", "ios"]),
     ("devops", ["devops", "sre", "infra", "infrastructure", "ops", "platform"]),
     ("cloud", ["cloud", "aws", "gcp", "azure"]),
     ("data", ["data", "ml", "ai", "analytics", "database", "databases"]),
     ("tools", ["tools", "tooling", "productivity"]),
     ("soft", ["soft", "soft skills", "softskills", "interpersonal"]),
     ("other", ["other", "misc", "general", "languages", "programming languages", "linguagens"])]

  lemma AliasRow(k: nat, key: string)
    requires k < 4 && key in ALIASES[k].1
    ensures Alias(key) == Some(ALIASES[k].0)
  {
    hide AliasMore;
  }

  lemma LateRow(k: nat, key: string)
    requires 4 <= k < |ALIASES| && key in ALIASES[k].1
    ensures AliasMore(key) == Some(ALIASES[k].0)
  {
  }

  lemma LateAlias(k: nat, key: string)
    requires 4 <= k < |ALIASES| && key in ALIASES[k].1
    ensures Alias(key) == AliasMore(key)
  {
    hide AliasMore;
  }

  lemma AliasInTable(key: string)
    ensures Alias(key).Some? ==>
              exists k :: 0 <= k < |ALIASES| && key in ALIASES[k].1 && Alias(key).value == ALIASES[k].0
  {
    assert ALIASES[0].0 == "frontend" && ALIASES[1].0 == "backend" && ALIASES[2].0 == "mobile";
    assert ALIASES[3].0 == "devops" && ALIASES[4].0 == "cloud" && ALIASES[5].0 == "data";
    assert ALIASES[6].0 == "tools" && ALIASES[7].0 == "soft" && ALIASES[8].0 == "other";
  }

  /** The alias map holds exactly the entries of the table, with its nine categories in the fixed order. */
  lemma AliasesExact(key: string, c: string)
    ensures Alias(key) == Some(c) <==> exists k :: 0 <= k < |ALIASES| && key in ALIASES[k].1 && c == ALIASES[k].0
    ensures |ALIASES| == |ORDER| && forall k :: 0 <= k < |ORDER| ==> ORDER[k] == ALIASES[k].0
  {
    hide Alias, AliasMore;
    AliasInTable(key);
    SameOrder();
    if k :| 0 <= k < |ALIASES| && key in ALIASES[k].1 && c == ALIASES[k].0 {
      if k < 4 {
        AliasRow(k, key);
      } else {
        LateRow(k, key);
        LateAlias(k, key);
      }
    }
  }

  lemma SameOrder()
    ensures |ALIASES| == |ORDER| && forall k :: 0 <= k < |ORDER| ==> ORDER[k] == ALIASES[k].0
  {
  }

  lemma {:induction false} KnownExact(key: string, k: nat)
    requires k <= |ORDER|
    ensures var c := KnownFrom(key, k);
            || (exists m :: k <= m < |ORDER| && c == ORDER[m] && Contains(key, ORDER[m])
                  && forall j :: k <= j < m ==> !Contains(key, ORDER[j]))
            || (c == "other" && forall j :: k <= j < |ORDER| ==> !Contains(key, ORDER[j]))
    decreases |ORDER| - k
  {
    hide Contains, ORDER;
    if k < |ORDER| && !Contains(key, ORDER[k]) {
      KnownExact(key, k + 1);
    }
  }

  /** The category of a text, exactly, from the key that is the text with its white space collapsed and lower-cased: the
      alias's, if it is one; else the first category, in the fixed order, whose name occurs in it; else "other". */
  lemma CategoryExact(lower: char -> char, s: string)
    ensures var key, c := Lower(lower, Collapse(s)), Canonical(lower, s);
            if key == "" then c == "other"
            else if exists k :: 0 <= k < |ALIASES| && key in ALIASES[k].1
            then exists k :: 0 <= k < |ALIASES| && key in ALIASES[k].1 && c == ALIASES[k].0
            else
              || (exists m :: 0 <= m < |ORDER| && c == ORDER[m] && Contains(key, ORDER[m])
                    && forall j :: 0 <= j < m ==> !Contains(key, ORDER[j]))
              || (c == "other" && forall j :: 0 <= j < |ORDER| ==> !Contains(key, ORDER[j]))
  {
    hide Alias, Collapse, Lower, ORDER, ALIASES, Contains;
    var key, c := Lower(lower, Collapse(s)), Canonical(lower, s);
    AliasesExact(key, c);
    KnownExact(key, 0);
    if k :| 0 <= k < |ALIASES| && key in ALIASES[k].1 {
      AliasesExact(key, ALIASES[k].0);
    }
  }

  /** A category name inside a longer title is found: "Frontend Development" is frontend. */
  lemma FrontendIsFound(lower: char -> char, s: string)
    requires Contains(Lower(lower, Collapse(s)), "frontend")
    requires forall k :: 0 <= k < |ALIASES| ==> Lower(lower, Collapse(s)) !in ALIASES[k].1
    ensures Canonical(lower, s) == "frontend"
  {
    hide Alias, Collapse, Lower, ALIASES, Contains;
    var key := Lower(lower, Collapse(s));
    CategoryExact(lower, s);
    assert ORDER[0] == "frontend";
    NothingInNothing(key);
  }

  lemma NothingInNothing(key: string)
    requires Contains(key, "frontend")
    ensures key != ""
  {
  }

  /** Category names are lower-case words, and their own categories. */
  lemma CategoryIsPlain(k: nat)
    requires k < |ORDER|
    ensures ORDER[k] != "" && forall i :: 0 <= i < |ORDER[k]| ==> 'a' <= ORDER[k][i] <= 'z'
  {
  }

  lemma CanonicalKeeps(lower: char -> char, c: string)
    requires LowersAscii(lower) && IsCategory(c)
    ensures Canonical(lower, c) == c
  {
    hide Alias, Fields, JoinSpace;
    var k :| 0 <= k < |ORDER| && ORDER[k] == c;
    CategoryIsPlain(k);
    WordCollapses(c);
    SelfAliases(k);
    assert Lower(lower, c) == c;
  }

  lemma WordCollapses(w: string)
    requires IsWord(w)
    ensures Collapse(w) == w
  {
    assert w + [] == w;
    FieldsWord(w, []);
  }

  // ---- first occurrences ----

  /** Some element has this lower-case form. */
  predicate Has(lower: char -> char, xs: seq<string>, key: string) {
    exists i :: 0 <= i < |xs| && Lower(lower, xs[i]) == key
  }

  /** The elements with no case-insensitive equal before them, in their order. */
  function Firsts(lower: char -> char, xs: seq<string>): seq<string> {
    if xs == [] then []
    else
      var n := |xs| - 1;
      Firsts(lower, xs[..n]) + (if Has(lower, xs[..n], Lower(lower, xs[n])) then [] else [xs[n]])
  }

  lemma FirstsStep(lower: char -> char, xs: seq<string>, x: string)
    ensures Firsts(lower, xs + [x]) == if Has(lower, xs, Lower(lower, x)) then Firsts(lower, xs)
              else Firsts(lower, xs) + [x]
  {
    hide Has;
    assert (xs + [x])[..|xs|] == xs;
  }

  lemma HasConcat(lower: char -> char, a: seq<string>, b: seq<string>, key: string)
    ensures Has(lower, a + b, key) <==> Has(lower, a, key) || Has(lower, b, key)
  {
    hide Lower;
    if Has(lower, a, key) {
      var i :| 0 <= i < |a| && Lower(lower, a[i]) == key;
      assert (a + b)[i] == a[i];
    } else if Has(lower, b, key) {
      var i :| 0 <= i < |b| && Lower(lower, b[i]) == key;
      assert (a + b)[|a| + i] == b[i];
    }
  }

  lemma HasOne(lower: char -> char, x: string, key: string)
    ensures Has(lower, [x], key) <==> Lower(lower, x) == key
  {
    hide Lower;
    assert [x][0] == x;
  }

  /** Splitting off the last element. */
  lemma Last(xs: seq<string>)
    requires xs != []
    ensures xs == xs[..|xs| - 1] + [xs[|xs| - 1]]
  {
  }

  /** No lower-case form is lost. */
  lemma {:induction false} FirstsHas(lower: char -> char, xs: seq<string>, key: string)
    ensures Has(lower, Firsts(lower, xs), key) <==> Has(lower, xs, key)
  {
    hide Has, Lower;
    if xs == [] {
    } else {
      var init, x := xs[..|xs| - 1], xs[|xs| - 1];
      Last(xs);
      FirstsHas(lower, init, key);
      FirstsStep(lower, init, x);
      HasConcat(lower, init, [x], key);
      HasConcat(lower, Firsts(lower, init), [x], key);
      HasOne(lower, x, key);
    }
  }

  /** Removing repeats from a part first makes no difference. */
  lemma {:induction false} FirstsOfParts(lower: char -> char, a: seq<string>, b: seq<string>)
    ensures Firsts(lower, a + Firsts(lower, b)) == Firsts(lower, a + b)
  {
    hide Has, Lower, Firsts;
    if b == [] {
      NoFirsts(lower);
    } else {
      var init, x := b[..|b| - 1], b[|b| - 1];
      var key, d := Lower(lower, x), Firsts(lower, init);
      Last(b);
      FirstsOfParts(lower, a, init);
      FirstsStep(lower, init, x);
      FirstsHas(lower, init, key);
      HasConcat(lower, a, init, key);
      HasConcat(lower, a, d, key);
      Regroup(a, init, x);
      Regroup(a, d, x);
      FirstsStep(lower, a + init, x);
      FirstsStep(lower, a + d, x);
    }
  }

  lemma NoFirsts(lower: char -> char)
    ensures Firsts(lower, []) == []
  {
  }

  lemma Regroup(a: seq<string>, b: seq<string>, x: string)
    ensures a + (b + [x]) == (a + b) + [x]
  {
  }

  lemma FirstsTwice(lower: char -> char, xs: seq<string>)
    ensures Firsts(lower, Firsts(lower, xs)) == Firsts(lower, xs)
  {
    hide Firsts;
    FirstsOfParts(lower, [], xs);
    assert [] + xs == xs && [] + Firsts(lower, xs) == Firsts(lower, xs);
  }

  lemma {:induction false} FirstsOfFront(lower: char -> char, a: seq<string>, b: seq<string>)
    ensures Firsts(lower, Firsts(lower, a) + b) == Firsts(lower, a + b)
  {
    hide Has, Lower;
    var d := Firsts(lower, a);
    if b == [] {
      assert d + b == d && a + b == a;
      FirstsTwice(lower, a);
    } else {
      var init, x := b[..|b| - 1], b[|b| - 1];
      var key := Lower(lower, x);
      Last(b);
      FirstsOfFront(lower, a, init);
      FirstsHas(lower, a, key);
      HasConcat(lower, a, init, key);
      HasConcat(lower, d, init, key);
      assert a + b == (a + init) + [x] && d + b == (d + init) + [x];
      FirstsStep(lower, a + init, x);
      FirstsStep(lower, d + init, x);
    }
  }

  /** No two elements have the same lower-case form. */
  predicate Distinct(lower: char -> char, xs: seq<string>) {
    forall i, j :: 0 <= i < j < |xs| ==> Lower(lower, xs[i]) != Lower(lower, xs[j])
  }

  lemma {:induction false} FirstsDistinct(lower: char -> char, xs: seq<string>)
    ensures Distinct(lower, Firsts(lower, xs))
    ensures forall x :: x in Firsts(lower, xs) ==> x in xs
  {
    hide Lower, Has;
    if xs != [] {
      var init, x := xs[..|xs| - 1], xs[|xs| - 1];
      FirstsDistinct(lower, init);
      FirstsHas(lower, init, Lower(lower, x));
      HasNot(lower, Firsts(lower, init), Lower(lower, x));
    }
  }

  lemma HasNot(lower: char -> char, xs: seq<string>, key: string)
    ensures !Has(lower, xs, key) <==> forall i :: 0 <= i < |xs| ==> Lower(lower, xs[i]) != key
  {
  }

  /** `ys` are the elements of `xs` at increasing positions, each with no case-insensitive equal before it. */
  predicate Picks(lower: char -> char, xs: seq<string>, ys: seq<string>, at: seq<nat>) {
    && |at| == |ys|
    && (forall k :: 0 <= k < |at| ==>
          at[k] < |xs| && ys[k] == xs[at[k]] && !Has(lower, xs[..at[k]], Lower(lower, ys[k])))
    && (forall k, l :: 0 <= k < l < |at| ==> at[k] < at[l])
  }

  /** The first occurrences keep their order and their spelling. */
  lemma {:induction false} FirstsPicked(lower: char -> char, xs: seq<string>)
    ensures exists at :: Picks(lower, xs, Firsts(lower, xs), at)
  {
    hide Has, Lower, Picks;
    if xs == [] {
      PickNone(lower);
    } else {
      var n := |xs| - 1;
      var init, x := xs[..n], xs[n];
      Last(xs);
      FirstsPicked(lower, init);
      var at :| Picks(lower, init, Firsts(lower, init), at);
      FirstsStep(lower, init, x);
      PickOn(lower, init, x, Firsts(lower, init), at);
    }
  }

  lemma PickNone(lower: char -> char)
    ensures Picks(lower, [], Firsts(lower, []), [])
  {
  }

  lemma PickOn(lower: char -> char, xs: seq<string>, x: string, ys: seq<string>, at: seq<nat>)
    requires Picks(lower, xs, ys, at)
    ensures Picks(lower, xs + [x], ys, at)
    ensures !Has(lower, xs, Lower(lower, x)) ==> Picks(lower, xs + [x], ys + [x], at + [|xs|])
  {
    hide Has, Lower;
    assert forall k :: 0 <= k < |at| ==> (xs + [x])[..at[k]] == xs[..at[k]];
    assert (xs + [x])[..|xs|] == xs;
  }

  // ---- cleaned items ----

  /** The collapsed items that are not empty. */
  function Tidy(xs: seq<string>): seq<string> {
    if xs == [] then []
    else
      var n := |xs| - 1;
      var s := Collapse(xs[n]);
      Tidy(xs[..n]) + (if s == "" then [] else [s])
  }

  lemma TidyStep(xs: seq<string>, x: string)
    ensures Tidy(xs + [x]) == Tidy(xs) + (if Collapse(x) == "" then [] else [Collapse(x)])
  {
    hide Collapse;
    assert (xs + [x])[..|xs|] == xs;
  }

  lemma {:induction false} TidyConcat(a: seq<string>, b: seq<string>)
    ensures Tidy(a + b) == Tidy(a) + Tidy(b)
  {
    hide Collapse;
    if b == [] {
      assert a + b == a;
    } else {
      var init, x := b[..|b| - 1], b[|b| - 1];
      Last(b);
      assert a + b == (a + init) + [x];
      TidyConcat(a, init);
      TidyStep(a + init, x);
    }
  }

  predicate IsTidy(s: string) { s != "" && Collapse(s) == s }

  lemma {:induction false} TidyIsTidy(xs: seq<string>)
    ensures forall x :: x in Tidy(xs) ==> IsTidy(x)
  {
    hide Fields, JoinSpace;
    if xs != [] {
      TidyIsTidy(xs[..|xs| - 1]);
      CollapseIdempotent(xs[|xs| - 1]);
    }
  }

  lemma {:induction false} TidyKeeps(xs: seq<string>)
    requires forall x :: x in xs ==> IsTidy(x)
    ensures Tidy(xs) == xs
  {
    hide Collapse;
    if xs != [] {
      Last(xs);
      assert IsTidy(xs[|xs| - 1]);
      TidyKeeps(xs[..|xs| - 1]);
    }
  }

  /** `cleanStrings` as it is written. */
  method CleanStrings(lower: char -> char, input: seq<string>) returns (out: seq<string>)
    ensures out == Firsts(lower, Tidy(input))
  {
    hide Collapse, TrimSpace, Fields, Lower, Has, Firsts, Tidy;
    NothingToClean(lower);
    if |input| == 0 {
      return [];
    }
    var seen: set<string> := {};
    out := [];
    for i := 0 to |input|
      invariant out == Firsts(lower, Tidy(input[..i]))
      invariant forall key :: key in seen <==> Has(lower, Tidy(input[..i]), key)
    {
      ghost var before := Tidy(input[..i]);
      var s := CollapseTrimmed(input[i]);
      assert input[..i + 1] == input[..i] + [input[i]];
      TidyStep(input[..i], input[i]);
      assert before + [] == before;
      if s == "" {
        continue;
      }
      var key := Lower(lower, s);
      FirstsStep(lower, before, s);
      SeenAfter(lower, before, s);
      if key in seen {
        continue;
      }
      seen := seen + {key};
      out := out + [s];
    }
    assert input[..|input|] == input;
  }

  /** The `collapse` of the source trims first. */
  function CollapseTrimmed(s: string): (t: string)
    ensures t == Collapse(s)
  {
    FieldsOfTrim(s);
    JoinSpace(Fields(TrimSpace(s)))
  }

  lemma NothingToClean(lower: char -> char)
    ensures Tidy([]) == [] && Firsts(lower, []) == [] && forall key :: !Has(lower, [], key)
  {
  }

  lemma SeenAfter(lower: char -> char, xs: seq<string>, x: string)
    ensures forall key :: Has(lower, xs + [x], key) <==> Has(lower, xs, key) || key == Lower(lower, x)
  {
    hide Has, Lower;
    forall key ensures Has(lower, xs + [x], key) <==> Has(lower, xs, key) || key == Lower(lower, x) {
      HasConcat(lower, xs, [x], key);
      HasOne(lower, x, key);
    }
  }

  // ---- cleaned groups ----

  /** The items of all groups of a category, one group after the other. */
  function Gather(lower: char -> char, gs: seq<Group>, c: string): seq<string> {
    if gs == [] then []
    else
      var n := |gs| - 1;
      Gather(lower, gs[..n], c) + (if Canonical(lower, gs[n].category) == c then gs[n].items else [])
  }

  /** What a category lists: its cleaned items, each at its first occurrence. */
  function Items(lower: char -> char, gs: seq<Group>, c: string): seq<string> {
    Firsts(lower, Tidy(Gather(lower, gs, c)))
  }

  function Listed(lower: char -> char, gs: seq<Group>, cats: seq<string>): seq<Group> {
    if cats == [] then []
    else
      var n := |cats| - 1;
      var items := Items(lower, gs, cats[n]);
      Listed(lower, gs, cats[..n]) + (if items == [] then [] else [Group(cats[n], items)])
  }

  /** `cleanSkills`: the categories in their fixed order, without the empty ones. */
  function CleanSkills(lower: char -> char, gs: seq<Group>): seq<Group> { Listed(lower, gs, ORDER) }

  // ---- the code ----

  function Of(m: map<string, seq<string>>, c: string): seq<string> { if c in m then m[c] else [] }

  lemma ItemsStep(lower: char -> char, gs: seq<Group>, g: Group, c: string)
    ensures Items(lower, gs + [g], c) ==
            if Canonical(lower, g.category) == c then Firsts(lower, Items(lower, gs, c) + Firsts(lower, Tidy(g.items)))
            else Items(lower, gs, c)
  {
    hide Firsts, Tidy, Canonical;
    assert (gs + [g])[..|gs|] == gs;
    if Canonical(lower, g.category) == c {
      var a, b := Tidy(Gather(lower, gs, c)), Tidy(g.items);
      TidyConcat(Gather(lower, gs, c), g.items);
      FirstsOfFront(lower, a, b);
      FirstsOfParts(lower, Firsts(lower, a), b);
    } else {
      assert Gather(lower, gs, c) + [] == Gather(lower, gs, c);
    }
  }

  /** The inner loop: the items of one group that its category has not listed yet. */
  method MergeItems(lower: char -> char, items: seq<string>, listed: seq<string>, seen: set<string>)
    returns (now: seq<string>, seenNow: set<string>)
    requires Firsts(lower, listed) == listed
    requires forall key :: key in seen <==> Has(lower, listed, key)
    ensures now == Firsts(lower, listed + items)
    ensures forall key :: key in seenNow <==> Has(lower, now, key)
  {
    hide Firsts, Has, Lower;
    now, seenNow := listed, seen;
    assert listed + items[..0] == listed;
    for i := 0 to |items|
      invariant now == Firsts(lower, listed + items[..i])
      invariant forall key :: key in seenNow <==> Has(lower, now, key)
    {
      var item := items[i];
      var key := Lower(lower, item);
      ghost var before := listed + items[..i];
      assert listed + items[..i + 1] == before + [item];
      FirstsStep(lower, before, item);
      FirstsHas(lower, before, key);
      if key in seenNow {
        continue;
      }
      SeenAfter(lower, now, item);
      seenNow := seenNow + {key};
      now := now + [item];
    }
    assert items[..|items|] == items;
  }

  /** `cleanSkills` as it is written, with its two maps. */
  method CleanSkillGroups(lower: char -> char, input: seq<Group>) returns (out: seq<Group>)
    ensures out == CleanSkills(lower, input)
  {
    hide Firsts, Has, Lower, Tidy, Canonical, Items, Listed;
    var merged: map<string, seq<string>> := map[];
    var seenInCat: map<string, set<string>> := map[];
    NothingListed(lower);
    for i := 0 to |input|
      invariant forall c :: Of(merged, c) == Items(lower, input[..i], c)
      invariant forall c :: c !in seenInCat ==> Of(merged, c) == []
      invariant forall c, key :: c in seenInCat ==> (key in seenInCat[c] <==> Has(lower, Of(merged, c), key))
    {
      var g := input[i];
      var cat := CanonicalizeSkillCategory(lower, g.category);
      NothingToClean(lower);
      if cat !in seenInCat {
        seenInCat := seenInCat[cat := {}];
      }
      var cleaned := CleanStrings(lower, g.items);
      StaysFirst(lower, input[..i], cat);
      var now, seenNow := MergeItems(lower, cleaned, Of(merged, cat), seenInCat[cat]);
      assert input[..i + 1] == input[..i] + [g];
      forall c ensures Items(lower, input[..i + 1], c) == if c == cat then now else Of(merged, c) {
        ItemsStep(lower, input[..i], g, c);
      }
      ghost var before := merged;
      merged, seenInCat := merged[cat := now], seenInCat[cat := seenNow];
      forall c ensures Of(merged, c) == Items(lower, input[..i + 1], c) {
        assert Of(merged, c) == if c == cat then now else Of(before, c);
      }
    }
    assert input[..|input|] == input;
    out := [];
    ListedNone(lower, input);
    for i := 0 to |ORDER|
      invariant out == Listed(lower, input, ORDER[..i])
    {
      var items := Of(merged, ORDER[i]);
      ListedStep(lower, input, ORDER, i);
      assert Listed(lower, input, ORDER[..i]) + [] == Listed(lower, input, ORDER[..i]);
      if |items| == 0 {
        continue;
      }
      out := out + [Group(ORDER[i], items)];
    }
    assert ORDER[..|ORDER|] == ORDER;
  }

  lemma NothingListed(lower: char -> char)
    ensures forall c :: Items(lower, [], c) == []
  {
  }

  lemma ListedNone(lower: char -> char, gs: seq<Group>)
    ensures Listed(lower, gs, []) == []
  {
  }

  lemma ListedStep(lower: char -> char, gs: seq<Group>, cats: seq<string>, i: nat)
    requires i < |cats|
    ensures Listed(lower, gs, cats[..i + 1]) ==
            Listed(lower, gs, cats[..i]) + (var items := Items(lower, gs, cats[i]); if items == [] then []
              else [Group(cats[i], items)])
  {
    hide Items;
    assert cats[..i + 1][..i] == cats[..i];
  }

  lemma StaysFirst(lower: char -> char, gs: seq<Group>, c: string)
    ensures Firsts(lower, Items(lower, gs, c)) == Items(lower, gs, c)
  {
    hide Firsts, Gather, Tidy;
    FirstsTwice(lower, Tidy(Gather(lower, gs, c)));
  }

  // ---- theorems ----

  /** A cleaned category: known, listed items cleaned and without case-insensitive repeats, not empty. */
  predicate IsCleanGroup(lower: char -> char, g: Group) {
    IsCategory(g.category) && g.items != [] && Distinct(lower, g.items) && forall x :: x in g.items ==> IsTidy(x)
  }

  lemma ItemsClean(lower: char -> char, gs: seq<Group>, c: string)
    ensures Distinct(lower, Items(lower, gs, c)) && forall x :: x in Items(lower, gs, c) ==> IsTidy(x)
  {
    hide Firsts, Tidy, Gather, IsTidy, Distinct;
    FirstsDistinct(lower, Tidy(Gather(lower, gs, c)));
    TidyIsTidy(Gather(lower, gs, c));
  }

  lemma {:induction false} ListedGroups(lower: char -> char, gs: seq<Group>, n: nat)
    requires n <= |ORDER|
    ensures forall g :: g in Listed(lower, gs, ORDER[..n]) ==>
              IsCleanGroup(lower, g) && g.items == Items(lower, gs, g.category)
    ensures forall g :: g in Listed(lower, gs, ORDER[..n]) ==> exists k :: 0 <= k < n && ORDER[k] == g.category
    ensures forall k :: 0 <= k < n && Items(lower, gs, ORDER[k]) != [] ==>
              Group(ORDER[k], Items(lower, gs, ORDER[k])) in Listed(lower, gs, ORDER[..n])
  {
    hide Items, IsTidy, Distinct, ORDER;
    if n > 0 {
      ListedGroups(lower, gs, n - 1);
      ListedStep(lower, gs, ORDER, n - 1);
      ItemsClean(lower, gs, ORDER[n - 1]);
      assert IsCategory(ORDER[n - 1]);
    }
  }

  /** Every group of the result is clean and holds exactly its category's items; no category with items is left out. */
  lemma GroupsExact(lower: char -> char, gs: seq<Group>)
    ensures forall g :: g in CleanSkills(lower, gs) <==>
              IsCategory(g.category) && g.items == Items(lower, gs, g.category) && g.items != []
    ensures forall g :: g in CleanSkills(lower, gs) ==> IsCleanGroup(lower, g)
  {
    hide Items, Listed, ORDER, IsTidy, Distinct;
    ListedGroups(lower, gs, |ORDER|);
    assert ORDER[..|ORDER|] == ORDER;
    forall g: Group | IsCategory(g.category) && g.items == Items(lower, gs, g.category) && g.items != []
      ensures g in CleanSkills(lower, gs)
    {
      assert g == Group(g.category, g.items);
    }
  }

  /** Position of a category in the fixed order. */
  predicate Before(a: string, b: string) { exists i, j :: 0 <= i < j < |ORDER| && ORDER[i] == a && ORDER[j] == b }

  predicate InOrder(out: seq<Group>) { forall i, j :: 0 <= i < j < |out| ==> Before(out[i].category, out[j].category) }

  lemma {:induction false} ListedSorted(lower: char -> char, gs: seq<Group>, n: nat)
    requires n <= |ORDER|
    ensures InOrder(Listed(lower, gs, ORDER[..n]))
  {
    hide Items, ORDER, Listed, IsCleanGroup;
    if n == 0 {
      ListedNone(lower, gs);
      assert ORDER[..0] == [];
    } else {
      ListedSorted(lower, gs, n - 1);
      ListedStep(lower, gs, ORDER, n - 1);
      ListedGroups(lower, gs, n - 1);
      var front, out := Listed(lower, gs, ORDER[..n - 1]), Listed(lower, gs, ORDER[..n]);
      forall i, j | 0 <= i < j < |out| ensures Before(out[i].category, out[j].category) {
        assert out[i] == front[i] && front[i] in front;
        if j < |front| {
          assert out[j] == front[j];
        }
      }
    }
  }

  /** The groups follow the fixed order of categories, so no category is repeated. */
  lemma GroupsInOrder(lower: char -> char, gs: seq<Group>)
    ensures InOrder(CleanSkills(lower, gs))
    ensures var out := CleanSkills(lower, gs); forall i, j :: 0 <= i < j < |out| ==> out[i].category != out[j].category
  {
    hide Listed, ORDER, Before;
    ListedSorted(lower, gs, |ORDER|);
    var out := CleanSkills(lower, gs);
    assert out == Listed(lower, gs, ORDER[..|ORDER|]) by { assert ORDER[..|ORDER|] == ORDER; }
    forall i, j | 0 <= i < j < |out| ensures out[i].category != out[j].category {
      BeforeDiffers(out[i].category, out[j].category);
    }
  }

  lemma BeforeDiffers(a: string, b: string)
    requires Before(a, b)
    ensures a != b
  {
    hide ORDER;
    var k, l :| 0 <= k < l < |ORDER| && ORDER[k] == a && ORDER[l] == b;
    CategoriesDiffer(k, l);
  }

  lemma CategoriesDiffer(i: nat, j: nat)
    requires i < |ORDER| && j < |ORDER|
    ensures ORDER[i] == ORDER[j] ==> i == j
  {
  }

  lemma {:induction false} GatherListed(lower: char -> char, gs: seq<Group>, n: nat, k: nat)
    requires LowersAscii(lower) && n <= |ORDER| && k < |ORDER|
    ensures Gather(lower, Listed(lower, gs, ORDER[..n]), ORDER[k]) == if k < n then Items(lower, gs, ORDER[k]) else []
  {
    hide Items, ORDER, Listed, Canonical, LowersAscii, IsCategory, Gather;
    if n == 0 {
      assert ORDER[..0] == [];
      ListedNone(lower, gs);
      GatherNone(lower, ORDER[k]);
    } else {
      var d := ORDER[n - 1];
      GatherListed(lower, gs, n - 1, k);
      ListedStep(lower, gs, ORDER, n - 1);
      NthIsCategory(n - 1);
      CanonicalKeeps(lower, d);
      CategoriesDiffer(k, n - 1);
      GatherStep(lower, Listed(lower, gs, ORDER[..n - 1]), d, Items(lower, gs, d), ORDER[k]);
    }
  }

  lemma GatherNone(lower: char -> char, c: string)
    ensures Gather(lower, [], c) == []
  {
  }

  lemma NthIsCategory(k: nat)
    requires k < |ORDER|
    ensures IsCategory(ORDER[k])
  {
  }

  lemma GatherStep(lower: char -> char, gs: seq<Group>, d: string, items: seq<string>, c: string)
    requires Canonical(lower, d) == d
    ensures Gather(lower, gs + (if items == [] then [] else [Group(d, items)]), c)
              == Gather(lower, gs, c) + (if d == c then items else [])
  {
    hide Canonical;
    if items == [] {
      assert gs + [] == gs;
    } else {
      var g := Group(d, items);
      assert (gs + [g])[..|gs|] == gs;
    }
  }

  /** Cleaning cleaned groups lists the same items. */
  lemma ItemsStable(lower: char -> char, gs: seq<Group>, c: string)
    requires LowersAscii(lower) && IsCategory(c)
    ensures Items(lower, CleanSkills(lower, gs), c) == Items(lower, gs, c)
  {
    hide Listed, Gather, Firsts, Tidy, ORDER, LowersAscii, IsTidy, Distinct;
    var k :| 0 <= k < |ORDER| && ORDER[k] == c;
    GatherListed(lower, gs, |ORDER|, k);
    assert ORDER[..|ORDER|] == ORDER;
    ItemsClean(lower, gs, c);
    TidyKeeps(Items(lower, gs, c));
    StaysFirst(lower, gs, c);
  }

  lemma {:induction false} ListedSame(lower: char -> char, gs: seq<Group>, hs: seq<Group>, n: nat)
    requires n <= |ORDER| && forall k :: 0 <= k < n ==> Items(lower, gs, ORDER[k]) == Items(lower, hs, ORDER[k])
    ensures Listed(lower, gs, ORDER[..n]) == Listed(lower, hs, ORDER[..n])
  {
    hide Items, ORDER, Listed;
    if n == 0 {
      assert ORDER[..0] == [];
      ListedNone(lower, gs);
      ListedNone(lower, hs);
    } else {
      ListedSame(lower, gs, hs, n - 1);
      ListedStep(lower, gs, ORDER, n - 1);
      ListedStep(lower, hs, ORDER, n - 1);
    }
  }

  /** A second clean-up changes nothing. */
  lemma CleanedOnce(lower: char -> char, gs: seq<Group>)
    requires LowersAscii(lower)
    ensures CleanSkills(lower, CleanSkills(lower, gs)) == CleanSkills(lower, gs)
  {
    hide Items, ORDER, Listed, LowersAscii;
    var hs := CleanSkills(lower, gs);
    forall k | 0 <= k < |ORDER| ensures Items(lower, hs, ORDER[k]) == Items(lower, gs, ORDER[k]) {
      NthIsCategory(k);
      ItemsStable(lower, gs, ORDER[k]);
    }
    ListedSame(lower, hs, gs, |ORDER|);
    assert ORDER[..|ORDER|] == ORDER;
  }

  // ---- which skills are kept ----

  predicate HasClean(lower: char -> char, items: seq<string>, key: string) {
    exists x :: x in items && Collapse(x) != "" && Lower(lower, Collapse(x)) == key
  }

  /** Some group of the category offers, once cleaned, an item with this lower-case form. */
  predicate Offers(lower: char -> char, gs: seq<Group>, c: string, key: string) {
    exists g :: g in gs && Canonical(lower, g.category) == c && HasClean(lower, g.items, key)
  }

  lemma {:induction false} TidyHas(lower: char -> char, xs: seq<string>, key: string)
    ensures Has(lower, Tidy(xs), key) <==> HasClean(lower, xs, key)
  {
    hide Has, Lower, Collapse;
    if xs == [] {
      NothingToClean(lower);
    } else {
      var init, x := xs[..|xs| - 1], xs[|xs| - 1];
      Last(xs);
      TidyHas(lower, init, key);
      TidyStep(init, x);
      assert Tidy(init) + [] == Tidy(init);
      HasConcat(lower, Tidy(init), [Collapse(x)], key);
      HasOne(lower, Collapse(x), key);
      assert forall z :: z in xs <==> z in init || z == x;
    }
  }

  lemma {:induction false} GatherHas(lower: char -> char, gs: seq<Group>, c: string, key: string)
    ensures HasClean(lower, Gather(lower, gs, c), key) <==> Offers(lower, gs, c, key)
  {
    hide Lower, Collapse, Canonical;
    if gs != [] {
      var init, g := gs[..|gs| - 1], gs[|gs| - 1];
      GatherHas(lower, init, c, key);
      assert gs == init + [g];
      assert forall h :: h in gs <==> h in init || h == g;
      CleanConcat(lower, Gather(lower, init, c), if Canonical(lower, g.category) == c then g.items else [], key);
      OffersStep(lower, init, g, c, key);
    }
  }

  lemma CleanConcat(lower: char -> char, a: seq<string>, b: seq<string>, key: string)
    ensures HasClean(lower, a + b, key) <==> HasClean(lower, a, key) || HasClean(lower, b, key)
  {
    hide Lower, Collapse;
    assert forall x :: x in a + b <==> x in a || x in b;
  }

  lemma OffersStep(lower: char -> char, gs: seq<Group>, g: Group, c: string, key: string)
    ensures Offers(lower, gs + [g], c, key) <==>
              Offers(lower, gs, c, key) || (Canonical(lower, g.category) == c && HasClean(lower, g.items, key))
  {
    hide HasClean, Canonical;
    assert forall h :: h in gs + [g] <==> h in gs || h == g;
  }

  lemma ItemsOffer(lower: char -> char, gs: seq<Group>, c: string, key: string)
    ensures Has(lower, Items(lower, gs, c), key) <==> Offers(lower, gs, c, key)
  {
    hide Has, Firsts, Tidy, Gather, Offers, HasClean;
    FirstsHas(lower, Tidy(Gather(lower, gs, c)), key);
    TidyHas(lower, Gather(lower, gs, c), key);
    GatherHas(lower, gs, c, key);
  }

  /** Category and lower-case form of every listed skill. */
  function Pairs(lower: char -> char, gs: seq<Group>): set<(string, string)> {
    set g, x | g in gs && x in g.items :: (g.category, Lower(lower, x))
  }

  /** The result lists exactly the skills that the input offers: none is lost, none is made up. */
  lemma PairsExact(lower: char -> char, gs: seq<Group>, c: string, key: string)
    ensures (c, key) in Pairs(lower, CleanSkills(lower, gs)) <==> Offers(lower, gs, c, key)
  {
    hide Items, Offers, Lower, CleanSkills;
    ItemsOffer(lower, gs, c, key);
    GroupsExact(lower, gs);
    OfferedCategory(lower, gs, c, key);
    var items := Items(lower, gs, c);
    if Has(lower, items, key) {
      var i :| 0 <= i < |items| && Lower(lower, items[i]) == key;
      var g := Group(c, items);
      assert g in CleanSkills(lower, gs) && items[i] in g.items;
    }
    if (c, key) in Pairs(lower, CleanSkills(lower, gs)) {
      var g, x :| g in CleanSkills(lower, gs) && x in g.items && (c, key) == (g.category, Lower(lower, x));
      var i :| 0 <= i < |items| && items[i] == x;
    }
  }

  lemma OfferedCategory(lower: char -> char, gs: seq<Group>, c: string, key: string)
    ensures Offers(lower, gs, c, key) ==> IsCategory(c)
  {
  }

  /** The order of the input groups decides spelling and position only, not which skills are listed where. */
  lemma GroupOrderIrrelevant(lower: char -> char, gs: seq<Group>, hs: seq<Group>)
    requires multiset(gs) == multiset(hs)
    ensures Pairs(lower, CleanSkills(lower, gs)) == Pairs(lower, CleanSkills(lower, hs))
  {
    hide Pairs, CleanSkills, Offers;
    SameGroups(gs, hs);
    forall p: (string, string) ensures p in Pairs(lower, CleanSkills(lower, gs)) <==>
      p in Pairs(lower, CleanSkills(lower, hs)) {
      var (c, key) := p;
      PairsExact(lower, gs, c, key);
      PairsExact(lower, hs, c, key);
      SameOffers(lower, gs, hs, c, key);
    }
  }

  lemma SameGroups(gs: seq<Group>, hs: seq<Group>)
    requires multiset(gs) == multiset(hs)
    ensures forall g :: g in gs <==> g in hs
  {
    assert forall g :: g in gs <==> g in multiset(gs);
    assert forall g :: g in hs <==> g in multiset(hs);
  }

  lemma SameOffers(lower: char -> char, gs: seq<Group>, hs: seq<Group>, c: string, key: string)
    requires forall g :: g in gs <==> g in hs
    ensures Offers(lower, gs, c, key) == Offers(lower, hs, c, key)
  {
    hide HasClean, Canonical;
  }
}
