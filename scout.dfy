/**
  The recommendation step that runs when the search button is pressed: look
  the selected name up in the player table, query the nearest-neighbour model
  with the first matching row's skills, map the neighbour indices back to
  rows, drop every row carrying the selected name, keep the rows within the
  age and price limits, and take the first five.

  The scaler and the neighbour model are pre-trained objects; together they
  are the parameter `knn`, a function from a raw feature vector to the
  neighbour row indices, nearest first.
 */
module Scout {
  import opened Seqs
  import opened Players

  /** `n_neighbors` of the neighbour query. */
  const NeighbourCount: nat := 20

  /** `head(5)`: how many recommendations are shown at most. */
  const TopCount: nat := 5

  /** Every index addresses a row of a table with `rows` rows. */
  predicate InRange(indices: seq<nat>, rows: nat)
  {
    forall k :: 0 <= k < |indices| ==> indices[k] < rows
  }

  /** What the neighbour model may return for one query: at most 20 row indices of the table. */
  predicate ValidNeighbours(indices: seq<nat>, rows: nat)
  {
    |indices| <= NeighbourCount && InRange(indices, rows)
  }

  /** Mask `df['short_name'] == name`. */
  function NameIs(name: string): Player -> bool
  {
    (p: Player) => p.shortName == name
  }

  /** Mask `short_name != name`: exclusion by display name, not by row. */
  function NameIsNot(name: string): Player -> bool
  {
    (p: Player) => p.shortName != name
  }

  /** Mask `(age <= max_age) & (value_eur <= max_price)`, both bounds inclusive. */
  function WithinLimits(maxAge: int, maxPrice: int): Player -> bool
  {
    (p: Player) => p.age <= maxAge && p.valueEur <= maxPrice
  }

  /** A candidate survives every filter of the post-filter. */
  predicate Qualifies(p: Player, name: string, maxAge: int, maxPrice: int)
  {
    p.shortName != name && p.age <= maxAge && p.valueEur <= maxPrice
  }

  /** The three masks as one function, for the lemmas about the whole filter. */
  function QualifiesFor(name: string, maxAge: int, maxPrice: int): Player -> bool
  {
    p => Qualifies(p, name, maxAge, maxPrice)
  }

  /** `df[df['short_name'] == name]`: every row with the selected name, in table order. */
  function RowsNamed(corpus: seq<Player>, name: string): (r: seq<Player>)
    ensures forall p :: p in r <==> p in corpus && p.shortName == name
    ensures r == [] <==> forall p <- corpus :: p.shortName != name
  {
    Keep(corpus, NameIs(name))
  }

  /** `df.iloc[indices]`: the rows at the given indices, in the order of the indices. */
  function Rows(corpus: seq<Player>, indices: seq<nat>): (r: seq<Player>)
    requires InRange(indices, |corpus|)
    ensures |r| == |indices|
    ensures forall k :: 0 <= k < |r| ==> r[k] == corpus[indices[k]]
  {
    seq(|indices|, k requires 0 <= k < |indices| => corpus[indices[k]])
  }

  /**
    The post-filter applied to the neighbour rows: drop the rows named `name`,
    keep the rows within both limits, then take the first five.
   */
  function PostFilter(candidates: seq<Player>, name: string, maxAge: int, maxPrice: int): (r: seq<Player>)
    ensures |r| <= TopCount && |r| <= |candidates|
    ensures forall p <- r :: p.shortName != name
    ensures forall p <- r :: p.age <= maxAge && p.valueEur <= maxPrice
    ensures Subseq(r, candidates)
  {
    var others := Keep(candidates, NameIsNot(name));
    var affordable := Keep(others, WithinLimits(maxAge, maxPrice));
    var r := Take(affordable, TopCount);
    PrefixIsSubseq(r, affordable);
    SubseqTrans(r, affordable, others);
    SubseqTrans(r, others, candidates);
    assert forall p <- r :: p in affordable;
    r
  }

  /** The result of pressing the search button. */
  datatype Outcome =
    | NotFound
    | Searched(target: seq<Player>, query: seq<int>, candidates: seq<Player>, recommendations: seq<Player>)

  /** What the page shows for an outcome: an error, the "no match" warning, or one card per recommendation. */
  datatype Banner = NotFoundError | NoMatchWarning | Cards(shown: seq<Player>)

  /**
    The whole step. `knn` stands for `scaler.transform` followed by
    `knn_model.kneighbors`; only the neighbour list of the first target row
    (`indices[0]`) is used, so it is applied to that row's vector.
   */
  function Recommend(corpus: seq<Player>, name: string, maxAge: int, maxPrice: int,
                     knn: seq<int> -> seq<nat>): (o: Outcome)
    requires forall p <- corpus :: Conforms(p)
    requires forall q :: ValidNeighbours(knn(q), |corpus|)
    ensures o.NotFound? <==> forall p <- corpus :: p.shortName != name
    ensures o.Searched? ==>
      o.target != [] &&
      o.target == RowsNamed(corpus, name) &&
      (forall p :: p in o.target <==> p in corpus && p.shortName == name) &&
      o.query == FeatureVector(o.target[0]) &&
      |o.query| == FeatureCount &&
      InRange(knn(o.query), |corpus|) &&
      o.candidates == Rows(corpus, knn(o.query)) &&
      |o.candidates| <= NeighbourCount &&
      o.recommendations == PostFilter(o.candidates, name, maxAge, maxPrice)
  {
    var target := RowsNamed(corpus, name);
    if target == [] then NotFound
    else
      assert target[0] in target;
      var query := FeatureVector(target[0]);
      assert ValidNeighbours(knn(query), |corpus|);
      var candidates := Rows(corpus, knn(query));
      Searched(target, query, candidates, PostFilter(candidates, name, maxAge, maxPrice))
  }

  function Display(o: Outcome): Banner
  {
    match o
    case NotFound => NotFoundError
    case Searched(_, _, _, recs) => if |recs| == 0 then NoMatchWarning else Cards(recs)
  }

  /** The three masks in a row select exactly the candidates that pass the conjunction of all filters. */
  lemma {:induction false} FiltersAreConjunctive(candidates: seq<Player>, name: string, maxAge: int, maxPrice: int)
    ensures PostFilter(candidates, name, maxAge, maxPrice)
         == Take(Keep(candidates, QualifiesFor(name, maxAge, maxPrice)), TopCount)
  {
    KeepKeep(candidates, NameIsNot(name), WithinLimits(maxAge, maxPrice), QualifiesFor(name, maxAge, maxPrice));
  }

  /** The post-filter is the scan that stops at the fifth qualifying neighbour, in neighbour order. */
  lemma PostFilterIsFirstFive(candidates: seq<Player>, name: string, maxAge: int, maxPrice: int)
    ensures PostFilter(candidates, name, maxAge, maxPrice)
         == FirstQualifying(candidates, QualifiesFor(name, maxAge, maxPrice), TopCount)
  {
    FiltersAreConjunctive(candidates, name, maxAge, maxPrice);
    TakeKeepIsFirstQualifying(candidates, QualifiesFor(name, maxAge, maxPrice), TopCount);
  }

  /**
    A neighbour that passes every filter and has fewer than five qualifying
    neighbours before it is recommended, at the position equal to that count.
   */
  lemma QualifierAmongFirstFiveIsRecommended(candidates: seq<Player>, name: string, maxAge: int, maxPrice: int, i: nat)
    requires i < |candidates| && Qualifies(candidates[i], name, maxAge, maxPrice)
    requires |Keep(candidates[..i], QualifiesFor(name, maxAge, maxPrice))| < TopCount
    ensures var recs := PostFilter(candidates, name, maxAge, maxPrice);
            var before := |Keep(candidates[..i], QualifiesFor(name, maxAge, maxPrice))|;
            before < |recs| && recs[before] == candidates[i]
  {
    FiltersAreConjunctive(candidates, name, maxAge, maxPrice);
    TakeKeepKeepsEarly(candidates, QualifiesFor(name, maxAge, maxPrice), TopCount, i);
  }

  /** Every recommendation is a qualifying neighbour; nothing else is ever shown. */
  lemma RecommendationsQualify(candidates: seq<Player>, name: string, maxAge: int, maxPrice: int, p: Player)
    requires p in PostFilter(candidates, name, maxAge, maxPrice)
    ensures p in candidates && Qualifies(p, name, maxAge, maxPrice)
  {
  }

  /**
    The page shows the "no match" warning exactly when the name is found and
    no neighbour passes the filters; it shows the not-found error exactly when
    no row carries the name.
   */
  lemma WarningExactlyWhenNoneQualifies(corpus: seq<Player>, name: string, maxAge: int, maxPrice: int,
                                        knn: seq<int> -> seq<nat>)
    requires forall p <- corpus :: Conforms(p)
    requires forall q :: ValidNeighbours(knn(q), |corpus|)
    ensures var o := Recommend(corpus, name, maxAge, maxPrice, knn);
            (Display(o) == NotFoundError <==> forall p <- corpus :: p.shortName != name) &&
            (Display(o) == NoMatchWarning <==>
               o.Searched? && forall c <- o.candidates :: !Qualifies(c, name, maxAge, maxPrice))
  {
    var o := Recommend(corpus, name, maxAge, maxPrice, knn);
    if o.Searched? {
      EmptyExactlyWhenNoneQualifies(o.candidates, name, maxAge, maxPrice);
    }
  }

  /** The post-filter comes back empty exactly when no neighbour passes every filter. */
  lemma EmptyExactlyWhenNoneQualifies(candidates: seq<Player>, name: string, maxAge: int, maxPrice: int)
    ensures PostFilter(candidates, name, maxAge, maxPrice) == []
        <==> forall c <- candidates :: !Qualifies(c, name, maxAge, maxPrice)
  {
    FiltersAreConjunctive(candidates, name, maxAge, maxPrice);
    var kept := Keep(candidates, QualifiesFor(name, maxAge, maxPrice));
    if kept != [] {
      assert kept[0] in kept;
      assert QualifiesFor(name, maxAge, maxPrice)(kept[0]);
    }
  }

  /** The query vector is the feature vector of the first row, in table order, that carries the name. */
  lemma {:induction false} TargetIsFirstNamesake(corpus: seq<Player>, name: string, i: nat)
    requires i < |corpus| && corpus[i].shortName == name
    requires forall j :: 0 <= j < i ==> corpus[j].shortName != name
    ensures RowsNamed(corpus, name) != [] && RowsNamed(corpus, name)[0] == corpus[i]
  {
    assert corpus == corpus[..i] + corpus[i..];
    KeepAppend(corpus[..i], corpus[i..], NameIs(name));
    assert corpus[i..] == [corpus[i]] + corpus[i + 1..];
  }

  /** Two table rows carrying the selected name both land in the target frame, so it has at least two rows. */
  lemma {:induction false} NamesakesFillTarget(corpus: seq<Player>, name: string, i: nat, j: nat)
    requires i < j < |corpus| && corpus[i].shortName == name && corpus[j].shortName == name
    ensures |RowsNamed(corpus, name)| >= 2
  {
    assert corpus == corpus[..j] + corpus[j..];
    KeepAppend(corpus[..j], corpus[j..], NameIs(name));
    assert corpus[i] in corpus[..j];
    assert Keep(corpus[..j], NameIs(name)) != [];
    assert corpus[j..] == [corpus[j]] + corpus[j + 1..];
    assert Keep(corpus[j..], NameIs(name)) == [corpus[j]] + Keep(corpus[j + 1..], NameIs(name));
  }

  /** A different player who shares the selected name is never recommended, even when nearest. */
  lemma NamesakeNeverRecommended(corpus: seq<Player>, name: string, maxAge: int, maxPrice: int,
                                 knn: seq<int> -> seq<nat>, p: Player)
    requires forall p <- corpus :: Conforms(p)
    requires forall q :: ValidNeighbours(knn(q), |corpus|)
    requires p in corpus && p.shortName == name
    ensures var o := Recommend(corpus, name, maxAge, maxPrice, knn);
            o.Searched? && p in o.target && p !in o.recommendations
  {
  }
}
