/** The `Populacao` of alg2.py: a list of individuals kept sorted by fitness,
    best first, and its elitist generational step `selecao_pais`. */
module Populations {
  import opened Genes
  import opened Individuals

  /** Sorted by fitness in descending order, as `sort(key=fitness, reverse=True)` leaves it. */
  ghost predicate SortedDesc(s: seq<Individual>)
  {
    forall i, j :: 0 <= i < j < |s| ==> s[i].fitness >= s[j].fitness
  }

  /** Every member well-formed, and the list `tamanho_populacao` long. */
  ghost predicate AllWellFormed(cfg: Config, s: seq<Individual>)
  {
    |s| == cfg.populationSize && forall j :: 0 <= j < |s| ==> WellFormed(cfg, s[j])
  }

  /** Putting `x` at position `j` adds it to the multiset of members. */
  lemma InsertAtPermutes<T>(t: seq<T>, j: nat, x: T)
    requires j <= |t|
    ensures multiset(t[..j] + [x] + t[j..]) == multiset(t) + multiset{x}
  {
    assert t == t[..j] + t[j..];
  }

  /** Putting `x` after every member at least as fit and before the rest keeps a
      sorted list sorted. */
  lemma InsertAtSorted(t: seq<Individual>, j: nat, x: Individual)
    requires SortedDesc(t) && j <= |t|
    requires forall k :: 0 <= k < j ==> t[k].fitness >= x.fitness
    requires j < |t| ==> t[j].fitness < x.fitness
    ensures SortedDesc(t[..j] + [x] + t[j..])
  {
    var u := t[..j] + [x] + t[j..];
    forall a, b | 0 <= a < b < |u|
      ensures u[a].fitness >= u[b].fitness
    {
      if b < j {
        assert u[a] == t[a] && u[b] == t[b];
      } else if b == j {
        assert u[a] == t[a];
      } else if a < j {
        assert u[a] == t[a] && u[b] == t[b - 1];
      } else if a == j {
        assert u[b] == t[b - 1];
      } else {
        assert u[a] == t[a - 1] && u[b] == t[b - 1];
      }
    }
  }

  /** Places `x` after every member at least as fit, keeping the list sorted. */
  method Insert(t: seq<Individual>, x: Individual) returns (u: seq<Individual>)
    requires SortedDesc(t)
    ensures SortedDesc(u)
    ensures multiset(u) == multiset(t) + multiset{x}
  {
    var j := 0;
    while j < |t| && t[j].fitness >= x.fitness
      invariant 0 <= j <= |t|
      invariant forall k :: 0 <= k < j ==> t[k].fitness >= x.fitness
    {
      j := j + 1;
    }
    InsertAtSorted(t, j, x);
    InsertAtPermutes(t, j, x);
    u := t[..j] + [x] + t[j..];
  }

  /** `list.sort(key=lambda x: x.fitness, reverse=True)`: the result is sorted by
      descending fitness and is a permutation of the input. */
  method SortDescending(s: seq<Individual>) returns (t: seq<Individual>)
    ensures SortedDesc(t)
    ensures multiset(t) == multiset(s)
  {
    t := [];
    var i := 0;
    while i < |s|
      invariant 0 <= i <= |s|
      invariant SortedDesc(t)
      invariant multiset(t) == multiset(s[..i])
    {
      t := Insert(t, s[i]);
      assert s[..i + 1] == s[..i] + [s[i]];
      i := i + 1;
    }
    assert s[..i] == s;
  }

  /** A permutation of well-formed members is well-formed. */
  lemma {:induction false} PermutationWellFormed(cfg: Config, s: seq<Individual>, t: seq<Individual>)
    requires AllWellFormed(cfg, s)
    requires multiset(t) == multiset(s)
    ensures AllWellFormed(cfg, t)
  {
    assert |t| == |multiset(t)| == |multiset(s)| == |s|;
    forall j | 0 <= j < |t|
      ensures WellFormed(cfg, t[j])
    {
      assert t[j] in multiset(t);
      assert t[j] in multiset(s);
      var k :| 0 <= k < |s| && s[k] == t[j];
    }
  }

  /** Elitism: a sorted list that still holds the elites `before[..e]` starts
      with a member at least as fit as every one of them, the old best included. */
  lemma {:induction false} ElitesBoundBest(before: seq<Individual>, e: nat, children: seq<Individual>, after: seq<Individual>)
    requires 0 < e <= |before|
    requires SortedDesc(after)
    requires multiset(after) == multiset(before[..e]) + multiset(children)
    ensures 0 < |after|
    ensures forall j :: 0 <= j < e ==> after[0].fitness >= before[j].fitness
  {
    forall j | 0 <= j < e
      ensures 0 < |after| && after[0].fitness >= before[j].fitness
    {
      assert before[..e][j] == before[j];
      assert before[j] in multiset(before[..e]);
      assert before[j] in multiset(after);
      var k :| 0 <= k < |after| && after[k] == before[j];
    }
  }

  /** What breeding children of `elites` needs: each pair names two of them,
      each of them has a full genome, and each child has its draws. */
  ghost predicate Breedable(cfg: Config, elites: seq<Individual>, pairs: seq<(nat, nat)>, draws: seq<ChildDraw>)
  {
    cfg.Valid() &&
    |pairs| == |draws| &&
    (forall j :: 0 <= j < |pairs| ==> pairs[j].0 < |elites| && pairs[j].1 < |elites|) &&
    (forall j :: 0 <= j < |elites| ==> cfg.individualSize <= |elites[j].genes|) &&
    (forall j :: 0 <= j < |draws| ==> ChildDrawOk(draws[j], cfg.individualSize, cfg.width, cfg.height))
  }

  /** Dropping the first child keeps what breeding needs. */
  lemma BreedableTail(cfg: Config, elites: seq<Individual>, pairs: seq<(nat, nat)>, draws: seq<ChildDraw>)
    requires Breedable(cfg, elites, pairs, draws) && 0 < |pairs|
    ensures Breedable(cfg, elites, pairs[1..], draws[1..])
    ensures CanBreed(cfg, elites[pairs[0].0], elites[pairs[0].1], draws[0])
  {
    assert forall j :: 0 <= j < |pairs| - 1 ==> pairs[1..][j] == pairs[j + 1] && draws[1..][j] == draws[j + 1];
  }

  /** The offspring `selecao_pais` places in the slots from `pais_selecionados` on: child `j` of the
      elites `pairs[j].0` and `pairs[j].1`, with the draws `draws[j]`. */
  function Children(cfg: Config, elites: seq<Individual>, pairs: seq<(nat, nat)>, draws: seq<ChildDraw>): (c: seq<Individual>)
    requires Breedable(cfg, elites, pairs, draws)
    ensures |c| == |pairs|
  {
    if pairs == [] then []
    else
      BreedableTail(cfg, elites, pairs, draws);
      [Offspring(cfg, elites[pairs[0].0], elites[pairs[0].1], draws[0])] + Children(cfg, elites, pairs[1..], draws[1..])
  }

  /** Child `j` is the offspring of the elites `pairs[j]` with the draws `draws[j]`. */
  lemma {:induction false} ChildAt(cfg: Config, elites: seq<Individual>, pairs: seq<(nat, nat)>, draws: seq<ChildDraw>, j: nat)
    requires Breedable(cfg, elites, pairs, draws)
    requires j < |pairs|
    ensures CanBreed(cfg, elites[pairs[j].0], elites[pairs[j].1], draws[j])
    ensures Children(cfg, elites, pairs, draws)[j] == Offspring(cfg, elites[pairs[j].0], elites[pairs[j].1], draws[j])
  {
    BreedableTail(cfg, elites, pairs, draws);
    if j > 0 {
      ChildAt(cfg, elites, pairs[1..], draws[1..], j - 1);
      assert pairs[1..][j - 1] == pairs[j] && draws[1..][j - 1] == draws[j];
    }
  }

  /** Children of well-formed elites are well-formed. */
  lemma ChildrenWellFormed(cfg: Config, elites: seq<Individual>, pairs: seq<(nat, nat)>, draws: seq<ChildDraw>)
    requires Breedable(cfg, elites, pairs, draws)
    requires forall j :: 0 <= j < |elites| ==> WellFormed(cfg, elites[j])
    ensures forall j :: 0 <= j < |pairs| ==> WellFormed(cfg, Children(cfg, elites, pairs, draws)[j])
  {
    var c := Children(cfg, elites, pairs, draws);
    forall j | 0 <= j < |pairs|
      ensures WellFormed(cfg, c[j])
    {
      ChildAt(cfg, elites, pairs, draws, j);
      OffspringWellFormed(cfg, elites[pairs[j].0], elites[pairs[j].1], draws[j]);
    }
  }

  /** `pais_selecionados`: the parents of every child are drawn from the slots
      below this one. */
  const ParentsSelected: nat := 5

  /** The number of slots `selecao_pais` leaves in place in a population of `n`:
      `range(pais_selecionados, tamanho_populacao)` overwrites every slot from
      `pais_selecionados` on, so all `n` slots stay when `n <= pais_selecionados`. */
  function EliteCount(n: nat): (e: nat)
    ensures e <= ParentsSelected && e <= n
    ensures e == ParentsSelected || e == n
  {
    if ParentsSelected < n then ParentsSelected else n
  }

  /** Joining well-formed elites and well-formed children gives a well-formed population. */
  lemma ConcatWellFormed(cfg: Config, elites: seq<Individual>, children: seq<Individual>)
    requires forall j :: 0 <= j < |elites| ==> WellFormed(cfg, elites[j])
    requires forall j :: 0 <= j < |children| ==> WellFormed(cfg, children[j])
    ensures forall j :: 0 <= j < |elites + children| ==> WellFormed(cfg, (elites + children)[j])
  {
    forall j | 0 <= j < |elites + children|
      ensures WellFormed(cfg, (elites + children)[j])
    {
      if j < |elites| {
        assert (elites + children)[j] == elites[j];
      } else {
        assert (elites + children)[j] == children[j - |elites|];
      }
    }
  }

  /** What `selecao_pais` needs of a well-formed population `s`: the elites
      `s[..EliteCount(|s|)]` can breed the children the pairs and draws describe,
      and the elites followed by those children are again a well-formed population. */
  lemma NextGenerationWellFormed(cfg: Config, s: seq<Individual>, pairs: seq<(nat, nat)>, draws: seq<ChildDraw>)
    requires cfg.Valid() && AllWellFormed(cfg, s)
    requires |pairs| == |draws| == |s| - EliteCount(|s|)
    requires forall j :: 0 <= j < |pairs| ==> pairs[j].0 < ParentsSelected && pairs[j].1 < ParentsSelected
    requires forall j :: 0 <= j < |draws| ==> ChildDrawOk(draws[j], cfg.individualSize, cfg.width, cfg.height)
    ensures Breedable(cfg, s[..EliteCount(|s|)], pairs, draws)
    ensures AllWellFormed(cfg, s[..EliteCount(|s|)] + Children(cfg, s[..EliteCount(|s|)], pairs, draws))
  {
    var e := EliteCount(|s|);
    var elites := s[..e];
    assert forall j :: 0 <= j < e ==> elites[j] == s[j];
    assert Breedable(cfg, elites, pairs, draws);
    ChildrenWellFormed(cfg, elites, pairs, draws);
    ConcatWellFormed(cfg, elites, Children(cfg, elites, pairs, draws));
  }

  /** Slots below `|p|` of `s` hold `p`, and the slots from `|p|` up to `i`
      hold the first members of `c`. */
  ghost predicate Filled<T>(s: seq<T>, p: seq<T>, c: seq<T>, i: nat)
  {
    |p| <= i <= |s| && i - |p| <= |c| &&
    (forall j :: 0 <= j < |p| ==> s[j] == p[j]) &&
    (forall j :: |p| <= j < i ==> s[j] == c[j - |p|])
  }

  /** Writing the next member of `c` into slot `i` fills one slot more. */
  lemma WriteNext<T>(s: seq<T>, p: seq<T>, c: seq<T>, i: nat)
    requires Filled(s, p, c, i) && i < |s| && i - |p| < |c|
    ensures Filled(s[i := c[i - |p|]], p, c, i + 1)
  {
  }

  /** A list filled to its end is `p` followed by `c`. */
  lemma FilledAll<T>(s: seq<T>, p: seq<T>, c: seq<T>)
    requires Filled(s, p, c, |s|) && |s| == |p| + |c|
    ensures s == p + c
  {
    assert forall j :: 0 <= j < |s| ==> s[j] == (p + c)[j];
  }

  class Population {
    const cfg: Config
    var individuals: seq<Individual>

    /** The population invariant: `tamanho_populacao` well-formed members,
        sorted best first. */
    ghost predicate Valid()
      reads this
    {
      cfg.Valid() && AllWellFormed(cfg, individuals) && SortedDesc(individuals)
    }

    /** `Populacao()`: `tamanho_populacao` individuals made from scratch, from
        the draws `seeds[j]`, then sorted. */
    constructor (c: Config, seeds: seq<seq<GeneDraw>>)
      requires c.Valid()
      requires |seeds| == c.populationSize
      requires forall j :: 0 <= j < |seeds| ==> |seeds[j]| == c.individualSize
      requires forall j, i :: 0 <= j < |seeds| && 0 <= i < |seeds[j]| ==> DrawInRange(seeds[j][i], c.width, c.height)
      ensures Valid()
      ensures cfg == c
      ensures multiset(individuals) ==
        multiset(seq(|seeds|, j requires 0 <= j < |seeds| =>
          Individual(SeededGenes(seeds[j], c.width, c.height), GenomeFitness(c, SeededGenes(seeds[j], c.width, c.height)))))
    {
      cfg := c;
      var xs: seq<Individual> := [];
      var j := 0;
      while j < c.populationSize
        invariant 0 <= j <= c.populationSize
        invariant |xs| == j
        invariant forall m :: 0 <= m < j ==> WellFormed(c, xs[m])
        invariant forall m :: 0 <= m < j ==>
          xs[m] == Individual(SeededGenes(seeds[m], c.width, c.height), GenomeFitness(c, SeededGenes(seeds[m], c.width, c.height)))
      {
        var ind := NewRandomIndividual(c, seeds[j]);
        xs := xs + [ind];
        j := j + 1;
      }
      var sorted := SortDescending(xs);
      PermutationWellFormed(c, xs, sorted);
      assert xs == seq(|seeds|, j requires 0 <= j < |seeds| =>
        Individual(SeededGenes(seeds[j], c.width, c.height), GenomeFitness(c, SeededGenes(seeds[j], c.width, c.height))));
      individuals := sorted;
    }

    /** `lista_fitness`: the fitness of each member, in population order. */
    method FitnessList() returns (fs: seq<real>)
      requires cfg.populationSize <= |individuals|
      ensures |fs| == cfg.populationSize
      ensures forall j :: 0 <= j < |fs| ==> fs[j] == individuals[j].fitness
    {
      fs := [];
      var j := 0;
      while j < cfg.populationSize
        invariant 0 <= j <= cfg.populationSize
        invariant |fs| == j
        invariant forall m :: 0 <= m < j ==> fs[m] == individuals[m].fitness
      {
        fs := fs + [individuals[j].fitness];
        j := j + 1;
      }
    }

    /** `get_melhor_fitness`: the member at index 0, which is at least as fit as every member. */
    function Best(): (b: Individual)
      reads this
      requires Valid() && 0 < cfg.populationSize
      ensures b == individuals[0]
      ensures forall j :: 0 <= j < |individuals| ==> b.fitness >= individuals[j].fitness
    {
      individuals[0]
    }

    /** `get_pior_fitness`: the member at index `tamanho_populacao - 1`, which is
        at most as fit as every member. */
    function Worst(): (w: Individual)
      reads this
      requires Valid() && 0 < cfg.populationSize
      ensures w == individuals[cfg.populationSize - 1]
      ensures forall j :: 0 <= j < |individuals| ==> w.fitness <= individuals[j].fitness
    {
      individuals[|individuals| - 1]
    }

    /** `recombinacao`: slot `i` receives the child of the two parents; nothing
        else changes. */
    method Recombine(i: nat, pai1: Individual, pai2: Individual, d: ChildDraw)
      requires i < |individuals|
      requires CanBreed(cfg, pai1, pai2, d)
      modifies this
      ensures individuals == old(individuals)[i := Offspring(cfg, pai1, pai2, d)]
    {
      var child := NewChild(cfg, pai1, pai2, d);
      individuals := individuals[i := child];
    }

    /** One pass of the loop of `selecao_pais`: slot `i` receives, through
        `recombinacao`, child `k` of the elites, read from the slots that still
        hold them. */
    method BreedInto(i: nat, k: nat, ghost elites: seq<Individual>, pairs: seq<(nat, nat)>, draws: seq<ChildDraw>)
      requires i < |individuals| && k < |pairs|
      requires Breedable(cfg, elites, pairs, draws)
      requires |elites| <= |individuals| && individuals[..|elites|] == elites
      modifies this
      ensures individuals == old(individuals)[i := Children(cfg, elites, pairs, draws)[k]]
    {
      var pai1 := individuals[pairs[k].0];
      var pai2 := individuals[pairs[k].1];
      assert pai1 == elites[pairs[k].0] && pai2 == elites[pairs[k].1];
      ChildAt(cfg, elites, pairs, draws, k);
      Recombine(i, pai1, pai2, draws[k]);
    }

    /** The loop of `selecao_pais`: every slot `i` from `pais_selecionados` on is
        overwritten by the child of the two elites `pairs[i - pais_selecionados]`
        among the slots below `pais_selecionados`. Those slots are read but never
        written, so each child's parents are the elites as they were. */
    method ReplaceNonElites(pairs: seq<(nat, nat)>, draws: seq<ChildDraw>)
      requires |individuals| == cfg.populationSize
      requires |pairs| == cfg.populationSize - EliteCount(cfg.populationSize)
      requires Breedable(cfg, individuals[..EliteCount(cfg.populationSize)], pairs, draws)
      modifies this
      ensures var e := EliteCount(cfg.populationSize);
        individuals == old(individuals)[..e] + Children(cfg, old(individuals)[..e], pairs, draws)
    {
      var n := cfg.populationSize;
      var e := EliteCount(n);
      ghost var elites := individuals[..e];
      ghost var children := Children(cfg, elites, pairs, draws);
      var i := e;
      while i < n
        invariant |individuals| == n
        invariant Filled(individuals, elites, children, i)
      {
        assert individuals[..e] == elites;
        ghost var before := individuals;
        BreedInto(i, i - e, elites, pairs, draws);
        WriteNext(before, elites, children, i);
        i := i + 1;
      }
      FilledAll(individuals, elites, children);
    }

    /** `selecao_pais`: the slots from `pais_selecionados` on are
        replaced by children of the elites, then the list is sorted again.
        Afterwards the population has its old size, is sorted and well-formed, is
        a permutation of the old elites and the children, and its best is at least
        as fit as the best before. */
    method SelectParents(pairs: seq<(nat, nat)>, draws: seq<ChildDraw>)
      requires Valid()
      requires |pairs| == |draws| == cfg.populationSize - EliteCount(cfg.populationSize)
      requires forall j :: 0 <= j < |pairs| ==> pairs[j].0 < ParentsSelected && pairs[j].1 < ParentsSelected && pairs[j].0 != pairs[j].1
      requires forall j :: 0 <= j < |draws| ==> ChildDrawOk(draws[j], cfg.individualSize, cfg.width, cfg.height)
      modifies this
      ensures Valid()
      ensures |individuals| == |old(individuals)|
      ensures var e := EliteCount(cfg.populationSize);
        multiset(individuals) ==
          multiset(old(individuals)[..e]) + multiset(Children(cfg, old(individuals)[..e], pairs, draws))
      ensures 0 < |individuals| ==> individuals[0].fitness >= old(individuals)[0].fitness
    {
      var e := EliteCount(cfg.populationSize);
      ghost var elites := individuals[..e];
      NextGenerationWellFormed(cfg, individuals, pairs, draws);
      ReplaceNonElites(pairs, draws);
      ghost var children := Children(cfg, elites, pairs, draws);
      var sorted := SortDescending(individuals);
      PermutationWellFormed(cfg, individuals, sorted);
      if 0 < e {
        ElitesBoundBest(old(individuals), e, children, sorted);
      }
      individuals := sorted;
    }
  }
}
