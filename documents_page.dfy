// The document list page: the template filter driven by a search term and a type.

module DocumentsPage {
  import opened Text
  import opened DocumentTemplates

  /** The template's `type` string. */
  function KindName(k: DocumentKind): string {
    match k
    case Policy => "policy"
    case Claim => "claim"
    case Quote => "quote"
    case Renewal => "renewal"
    case Certificate => "certificate"
  }

  /** The search term occurs, ignoring case, in the template's name or description. */
  predicate MatchesSearch(t: DocumentTemplate, search: string) {
    Contains(Lower(t.name), Lower(search)) || Contains(Lower(t.description), Lower(search))
  }

  /** The type filter is "all" or names the template's type. */
  predicate MatchesType(t: DocumentTemplate, filterType: string) {
    filterType == "all" || KindName(t.kind) == filterType
  }

  predicate Matches(t: DocumentTemplate, search: string, filterType: string) {
    MatchesSearch(t, search) && MatchesType(t, filterType)
  }

  /** The templates that pass both tests, in their original order. */
  function FilterTemplates(ts: seq<DocumentTemplate>, search: string, filterType: string): (r: seq<DocumentTemplate>)
    ensures |r| <= |ts|
    ensures forall t :: t in r <==> t in ts && Matches(t, search, filterType)
  {
    if ts == [] then []
    else (if Matches(ts[0], search, filterType) then [ts[0]] else []) + FilterTemplates(ts[1..], search, filterType)
  }

  /** `filteredTemplates` of the page. */
  function FilteredTemplates(search: string, filterType: string): seq<DocumentTemplate> {
    FilterTemplates(DocumentTemplates.DocumentTemplates, search, filterType)
  }

  /** Filtering keeps the order: the filter of a concatenation is the concatenation of
      the filters. */
  lemma {:induction false} FilterAppend(a: seq<DocumentTemplate>, b: seq<DocumentTemplate>, search: string, filterType: string)
    ensures FilterTemplates(a + b, search, filterType)
         == FilterTemplates(a, search, filterType) + FilterTemplates(b, search, filterType)
    decreases |a|
  {
    if a != [] {
      assert (a + b)[1..] == a[1..] + b;
      FilterAppend(a[1..], b, search, filterType);
    } else {
      assert a + b == b;
    }
  }

  /** Every template matches the empty search. */
  lemma EmptySearchMatches(t: DocumentTemplate)
    ensures MatchesSearch(t, "")
  {
    ContainsEmpty(Lower(t.name));
  }

  /** With an empty search and the type "all" the page lists every template in order. */
  lemma {:induction false} FilterEverything(ts: seq<DocumentTemplate>)
    ensures FilterTemplates(ts, "", "all") == ts
    decreases |ts|
  {
    if ts != [] {
      EmptySearchMatches(ts[0]);
      FilterEverything(ts[1..]);
    }
  }

  /** A type other than "all" leaves only templates of that type. */
  lemma FilterByType(ts: seq<DocumentTemplate>, search: string, filterType: string)
    requires filterType != "all"
    ensures forall t | t in FilterTemplates(ts, search, filterType) :: KindName(t.kind) == filterType
  {
  }

  /** A longer search term lists no template a shorter term contained in it does not. */
  lemma FilterNarrows(ts: seq<DocumentTemplate>, short: string, long: string, filterType: string)
    requires Contains(long, short)
    ensures forall t | t in FilterTemplates(ts, long, filterType) :: t in FilterTemplates(ts, short, filterType)
  {
    ContainsLower(long, short);
    forall t | t in FilterTemplates(ts, long, filterType)
      ensures MatchesSearch(t, short)
    {
      if Contains(Lower(t.name), Lower(long)) {
        ContainsTransitive(Lower(t.name), Lower(long), Lower(short));
      } else {
        ContainsTransitive(Lower(t.description), Lower(long), Lower(short));
      }
    }
  }

  /** The search ignores case: a lower-cased term lists the same templates. */
  lemma {:induction false} FilterIgnoresCase(ts: seq<DocumentTemplate>, search: string, filterType: string)
    ensures FilterTemplates(ts, Lower(search), filterType) == FilterTemplates(ts, search, filterType)
    decreases |ts|
  {
    LowerIdempotent(search);
    if ts != [] {
      FilterIgnoresCase(ts[1..], search, filterType);
    }
  }

  /** The registry holds two policies and a claim form, in that order. */
  lemma RegistryKinds()
    ensures |DocumentTemplates.DocumentTemplates| == 3
    ensures DocumentTemplates.DocumentTemplates[0].kind == Policy
    ensures DocumentTemplates.DocumentTemplates[1].kind == Policy
    ensures DocumentTemplates.DocumentTemplates[2] == ClaimForm && ClaimForm.kind == Claim
  {
  }

  /** A type no template has lists nothing. */
  lemma FilterNone(ts: seq<DocumentTemplate>, search: string, filterType: string)
    requires filterType != "all"
    requires forall i | 0 <= i < |ts| :: KindName(ts[i].kind) != filterType
    ensures FilterTemplates(ts, search, filterType) == []
  {
  }

  /** No template of the registry has the type "quote", so that filter lists nothing. */
  lemma NoQuoteTemplates(search: string)
    ensures FilteredTemplates(search, "quote") == []
  {
    RegistryKinds();
    var ts := DocumentTemplates.DocumentTemplates;
    assert KindName(Policy) != "quote" && KindName(Claim) != "quote";
    FilterNone(ts, search, "quote");
  }

  /** Only the last template has the type: the filter lists it, or nothing when the
      search misses it. */
  lemma FilterOnlyLast(ts: seq<DocumentTemplate>, search: string, filterType: string)
    requires filterType != "all" && |ts| > 0
    requires forall i | 0 <= i < |ts| - 1 :: KindName(ts[i].kind) != filterType
    requires KindName(ts[|ts| - 1].kind) == filterType
    ensures FilterTemplates(ts, search, filterType)
         == if MatchesSearch(ts[|ts| - 1], search) then [ts[|ts| - 1]] else []
  {
    var n := |ts| - 1;
    assert ts == ts[..n] + [ts[n]];
    FilterNone(ts[..n], search, filterType);
    FilterAppend(ts[..n], [ts[n]], search, filterType);
    assert [ts[n]][1..] == [];
  }

  /** The type "claim" lists the claim form alone, when the search matches it. */
  lemma ClaimFilter(search: string)
    ensures FilteredTemplates(search, "claim") == if MatchesSearch(ClaimForm, search) then [ClaimForm] else []
  {
    RegistryKinds();
    var ts := DocumentTemplates.DocumentTemplates;
    assert KindName(Policy) != "claim";
    FilterOnlyLast(ts, search, "claim");
  }
}
