/**
  The boolean "must" query that the product search sends to the search engine.
  Each optional filter (country, name, description) contributes one clause when
  it is not empty; with no filter at all the query matches every document; the
  visibility filter is always appended last.
 */
module Query {
  import opened Wrappers
  import opened Text

  /** The value of an exact-term clause: a keyword or a boolean. */
  datatype TermValue = Keyword(s: string) | Flag(b: bool)

  /** One clause of the boolean query. */
  datatype Clause =
    | Term(field: string, value: TermValue)              // exact term on a keyword field
    | Match(field: string, text: string)                 // analysed full-text match
    | MultiPrefix(text: string, fields: seq<string>)     // bool-prefix multi-match over several fields
    | MatchAll

  /** The description field and its 2-gram and 3-gram sub-fields, in this order. */
  const DescriptionSearchFields: seq<string> := ["description", "description._2gram", "description._3gram"]

  /** The implicit filter: only visible products are ever returned. */
  const VisibleFilter: Clause := Term("visible", Flag(true))

  function CountryClause(country: string): Clause {
    Term("country", Keyword(country))
  }

  function NameClause(name: string): Clause {
    Match("name", name)
  }

  function DescriptionClause(description: string): Clause {
    MultiPrefix(description, DescriptionSearchFields)
  }

  /** None of the three filters carries a value. */
  predicate NoFilter(name: Option<string>, description: Option<string>, country: Option<string>) {
    IsEmpty(country) && IsEmpty(name) && IsEmpty(description)
  }

  /**
    The position class of a clause in the query: country term, name match,
    description prefix match (or match-all), then the visibility term.
   */
  function Rank(c: Clause): nat {
    match c
    case Term(f, _) => if f == "country" then 0 else 3
    case Match(_, _) => 1
    case MultiPrefix(_, _) => 2
    case MatchAll => 2
  }

  /** Clauses appear in strictly increasing rank, so each rank at most once. */
  predicate StrictlyRanked(cs: seq<Clause>) {
    forall i, j :: 0 <= i < j < |cs| ==> Rank(cs[i]) < Rank(cs[j])
  }

  /** The clauses a query for these filters may contain. */
  predicate Allowed(name: Option<string>, description: Option<string>, country: Option<string>, c: Clause) {
    || (!IsEmpty(country) && c == CountryClause(country.value))
    || (!IsEmpty(name) && c == NameClause(name.value))
    || (!IsEmpty(description) && c == DescriptionClause(description.value))
    || (NoFilter(name, description, country) && c == MatchAll)
    || c == VisibleFilter
  }

  /**
    A declarative description of the query for these filters: it holds exactly
    the allowed clauses, in rank order.
   */
  ghost predicate IsMustList(name: Option<string>, description: Option<string>, country: Option<string>, cs: seq<Clause>) {
    && (forall i :: 0 <= i < |cs| ==> Allowed(name, description, country, cs[i]))
    && (forall c :: Allowed(name, description, country, c) ==> c in cs)
    && StrictlyRanked(cs)
  }

  /** The "must" clauses built for the given filters, in the order they are added. */
  function MustClauses(name: Option<string>, description: Option<string>, country: Option<string>): (r: seq<Clause>)
    ensures |r| >= 2 && r[|r| - 1] == VisibleFilter
    ensures NoFilter(name, description, country) ==> r == [MatchAll, VisibleFilter]
    ensures forall v :: CountryClause(v) in r <==> country == Some(v) && v != ""
    ensures forall v :: NameClause(v) in r <==> name == Some(v) && v != ""
    ensures forall v, fs :: MultiPrefix(v, fs) in r <==> description == Some(v) && v != "" && fs == DescriptionSearchFields
    ensures MatchAll in r <==> NoFilter(name, description, country)
    ensures StrictlyRanked(r)
  {
    var withCountry := if IsEmpty(country) then [] else [CountryClause(country.value)];
    var withName := if IsEmpty(name) then withCountry else withCountry + [NameClause(name.value)];
    var withDescription :=
      if IsEmpty(description) then withName else withName + [DescriptionClause(description.value)];
    var nonEmpty := if |withDescription| == 0 then [MatchAll] else withDescription;
    nonEmpty + [VisibleFilter]
  }

  /** Only whether a filter is empty matters, not whether it was null or "". */
  lemma MustClausesNormalize(name: Option<string>, description: Option<string>, country: Option<string>)
    ensures MustClauses(Normalize(name), Normalize(description), Normalize(country)) == MustClauses(name, description, country)
  {
  }

  lemma HeadIsMember(cs: seq<Clause>)
    ensures |cs| == 0 || cs[0] in cs
  {
  }

  /** Two rank-ordered lists with the same members start with the same clause. */
  lemma RankedHeads(xs: seq<Clause>, ys: seq<Clause>)
    requires StrictlyRanked(xs) && StrictlyRanked(ys)
    requires forall c :: c in xs <==> c in ys
    requires |xs| > 0
    ensures |ys| > 0 && xs[0] == ys[0]
  {
    assert xs[0] in ys;
    var k :| 0 <= k < |ys| && ys[k] == xs[0];
    assert ys[0] in xs;
    var m :| 0 <= m < |xs| && xs[m] == ys[0];
    assert Rank(ys[0]) <= Rank(ys[k]) == Rank(xs[0]) <= Rank(xs[m]) == Rank(ys[0]);
  }

  /** Dropping the common first clause keeps the members equal. */
  lemma RankedTails(xs: seq<Clause>, ys: seq<Clause>)
    requires StrictlyRanked(xs) && StrictlyRanked(ys)
    requires forall c :: c in xs <==> c in ys
    requires |xs| > 0 && |ys| > 0 && xs[0] == ys[0]
    ensures forall c :: c in xs[1..] <==> c in ys[1..]
  {
    forall c
      ensures c in xs[1..] <==> c in ys[1..]
    {
      if c in xs[1..] {
        var i :| 1 <= i < |xs| && xs[i] == c;
        assert Rank(c) > Rank(xs[0]);
        assert c in ys;
      }
      if c in ys[1..] {
        var j :| 1 <= j < |ys| && ys[j] == c;
        assert Rank(c) > Rank(ys[0]);
        assert c in xs;
      }
    }
  }

  /** Two rank-ordered clause lists with the same members are the same list. */
  lemma {:induction false} RankedUnique(xs: seq<Clause>, ys: seq<Clause>)
    requires StrictlyRanked(xs) && StrictlyRanked(ys)
    requires forall c :: c in xs <==> c in ys
    ensures xs == ys
    decreases |xs|
  {
    if |xs| == 0 {
      HeadIsMember(ys);
    } else {
      RankedHeads(xs, ys);
      RankedTails(xs, ys);
      RankedUnique(xs[1..], ys[1..]);
      assert xs == [xs[0]] + xs[1..];
      assert ys == [ys[0]] + ys[1..];
    }
  }

  /** The built clause list meets the declarative description. */
  lemma MustClausesMeetsSpec(name: Option<string>, description: Option<string>, country: Option<string>)
    ensures IsMustList(name, description, country, MustClauses(name, description, country))
  {
  }

  /**
    The declarative description determines the query completely: any clause
    list that meets it is the one the repository builds.
   */
  lemma MustListUnique(name: Option<string>, description: Option<string>, country: Option<string>, cs: seq<Clause>)
    requires IsMustList(name, description, country, cs)
    ensures cs == MustClauses(name, description, country)
  {
    var r := MustClauses(name, description, country);
    MustClausesMeetsSpec(name, description, country);
    forall c
      ensures c in cs <==> c in r
    {
      if c in cs {
        var i :| 0 <= i < |cs| && cs[i] == c;
        assert Allowed(name, description, country, c);
      }
      if c in r {
        var i :| 0 <= i < |r| && r[i] == c;
        assert Allowed(name, description, country, c);
      }
    }
    RankedUnique(cs, r);
  }

  /** A non-empty description contributes exactly one prefix match, over the three description fields. */
  lemma OneDescriptionClause(name: Option<string>, description: Option<string>, country: Option<string>)
    requires !IsEmpty(description)
    ensures var r := MustClauses(name, description, country);
      exists i :: 0 <= i < |r| && r[i] == DescriptionClause(description.value)
                  && forall j :: 0 <= j < |r| && j != i ==> !r[j].MultiPrefix?
  {
    var r := MustClauses(name, description, country);
    assert DescriptionClause(description.value) in r;
    var i :| 0 <= i < |r| && r[i] == DescriptionClause(description.value);
    forall j | 0 <= j < |r| && j != i
      ensures !r[j].MultiPrefix?
    {
      assert Rank(r[j]) != Rank(r[i]);
    }
  }
}
