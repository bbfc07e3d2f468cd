/** The home page's cafeteria search: a case-insensitive match on the name or the description. */
module Home {
  import opened Wrappers
  import Text
  import Seqs

  datatype Cafeteria = Cafeteria(id: string, name: string, description: Option<string>)

  /** The search predicate of one cafeteria; a missing description searches as "". */
  function MatchesSearch(query: string): Cafeteria -> bool {
    (c: Cafeteria) => Text.LowerIncludes(c.name, query) || Text.LowerIncludes(c.description.GetOr(""), query)
  }

  /** `filteredCafeterias`. `category` is the selected category chip, which the filter does not read. */
  function FilteredCafeterias(cafeterias: seq<Cafeteria>, query: string, category: string): (r: seq<Cafeteria>)
    ensures forall c :: c in r <==>
      (c in cafeterias && (Text.LowerIncludes(c.name, query) || Text.LowerIncludes(c.description.GetOr(""), query)))
  {
    Seqs.Filter(cafeterias, MatchesSearch(query))
  }

  /** An empty query keeps every cafeteria; a search keeps the input order; the category is ignored;
      a cafeteria without a description is found by its name only. */
  lemma SearchProps(cafeterias: seq<Cafeteria>, query: string, c1: string, c2: string)
    ensures FilteredCafeterias(cafeterias, "", c1) == cafeterias
    ensures Seqs.IsSubsequence(FilteredCafeterias(cafeterias, query, c1), cafeterias)
    ensures FilteredCafeterias(cafeterias, query, c1) == FilteredCafeterias(cafeterias, query, c2)
  {
    forall c | c in cafeterias ensures MatchesSearch("")(c) {
      Text.LowerIncludesProps(c.name, "");
    }
    Seqs.FilterKeepsAll(cafeterias, MatchesSearch(""));
    Seqs.FilterIsSubsequence(cafeterias, MatchesSearch(query));
  }

  /** A query that occurs in a name, in any letter case, finds that cafeteria. */
  lemma NameHitIsFound(cafeterias: seq<Cafeteria>, c: Cafeteria, query: string, category: string)
    requires c in cafeterias && Text.Includes(c.name, query)
    ensures c in FilteredCafeterias(cafeterias, query, category)
  {
    Text.LowerIncludesProps(c.name, query);
  }
}
