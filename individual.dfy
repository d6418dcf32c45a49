/** The `Individuo` of alg2.py: a genome of triangles with its fitness, cached
    when the genome is complete. Individuals are built in two ways: from
    scratch, with invisible genes, and from two parents, by per-gene crossover
    followed by mutation. */
module Individuals {
  import opened Raster
  import opened Genes

  /** The module-level settings of alg2.py, passed explicitly: the size of the
      target image and its pixels, `tamanho_populacao`, `tamanho_individuo`,
      `prob_mutacao`, and the rasteriser (`get_imagem`), which is left
      uninterpreted: any total function from genomes to rasters of the image's size. */
  datatype Config = Config(
    width: nat,
    height: nat,
    target: seq<seq<Rgb>>,
    populationSize: nat,
    individualSize: nat,
    mutationRate: real,
    render: seq<Gene> -> seq<seq<Rgb>>)
  {
    /** The target was loaded from an image file, which has at least one pixel,
        and every render has the target's size. */
    ghost predicate Valid()
    {
      width > 0 && height > 0 && IsImage(target, width, height) &&
      forall gs: seq<Gene> :: IsImage(render(gs), width, height)
    }
  }

  datatype Individual = Individual(genes: seq<Gene>, fitness: real)

  /** `get_fitness` of a genome: the rendered raster scored against the target.
      The score lies in [1/2, 1]. */
  function GenomeFitness(cfg: Config, genes: seq<Gene>): (f: real)
    requires cfg.Valid()
    ensures 0.5 <= f <= 1.0
  {
    ImageFitness(cfg.render(genes), cfg.target, cfg.width, cfg.height).value
  }

  /** A genome scores 1 exactly when it renders to the target. */
  lemma PerfectGenome(cfg: Config, genes: seq<Gene>)
    requires cfg.Valid()
    ensures GenomeFitness(cfg, genes) == 1.0 <==> cfg.render(genes) == cfg.target
  {
  }

  /** What holds of every individual the program makes: `tamanho_individuo`
      valid genes and a fitness that is that of its genome. */
  ghost predicate WellFormed(cfg: Config, ind: Individual)
  {
    cfg.Valid() &&
    |ind.genes| == cfg.individualSize &&
    (forall i :: 0 <= i < |ind.genes| ==> ValidGene(ind.genes[i], cfg.width, cfg.height)) &&
    ind.fitness == GenomeFitness(cfg, ind.genes)
  }

  // ---------------------------------------------------------------------------
  // Building from scratch (`Individuo()` without parents)

  /** The genome an individual made from scratch receives: one invisible gene per draw. */
  function SeededGenes(draws: seq<GeneDraw>, w: nat, h: nat): (genes: seq<Gene>)
    requires forall i :: 0 <= i < |draws| ==> DrawInRange(draws[i], w, h)
    ensures |genes| == |draws|
    ensures forall i :: 0 <= i < |genes| ==> ValidGene(genes[i], w, h) && genes[i].a == 0
  {
    seq(|draws|, i requires 0 <= i < |draws| => NewGene(draws[i], true, w, h))
  }

  /** `Individuo()`: appends `tamanho_individuo` invisible genes, then caches the fitness. */
  method NewRandomIndividual(cfg: Config, draws: seq<GeneDraw>) returns (ind: Individual)
    requires cfg.Valid()
    requires |draws| == cfg.individualSize
    requires forall i :: 0 <= i < |draws| ==> DrawInRange(draws[i], cfg.width, cfg.height)
    ensures ind.genes == SeededGenes(draws, cfg.width, cfg.height)
    ensures WellFormed(cfg, ind)
  {
    var genes: seq<Gene> := [];
    var i := 0;
    while i < cfg.individualSize
      invariant 0 <= i <= cfg.individualSize
      invariant genes == SeededGenes(draws[..i], cfg.width, cfg.height)
    {
      genes := genes + [NewGene(draws[i], true, cfg.width, cfg.height)];
      i := i + 1;
    }
    assert draws[..i] == draws;
    ind := Individual(genes, GenomeFitness(cfg, genes));
  }

  // ---------------------------------------------------------------------------
  // Crossover (`Individuo(pai1, pai2)`, the loop before `mutacao`)

  /** The crossed genome: position `i` comes from the first parent when the
      `i`-th draw of `randint(0, 1)` was 1, from the second otherwise. */
  function Crossed(pai1: seq<Gene>, pai2: seq<Gene>, coins: seq<bool>, n: nat): (c: seq<Gene>)
    requires n <= |pai1| && n <= |pai2| && n <= |coins|
    ensures |c| == n
    ensures forall i :: 0 <= i < n ==> c[i] == pai1[i] || c[i] == pai2[i]
  {
    seq(n, i requires 0 <= i < n => if coins[i] then pai1[i] else pai2[i])
  }

  /** The crossover loop: appends, for each of the `n` positions, the gene of the
      parent the coin picks. */
  method Crossover(pai1: seq<Gene>, pai2: seq<Gene>, coins: seq<bool>, n: nat) returns (genes: seq<Gene>)
    requires n <= |pai1| && n <= |pai2| && n <= |coins|
    ensures genes == Crossed(pai1, pai2, coins, n)
  {
    genes := [];
    var i := 0;
    while i < n
      invariant 0 <= i <= n
      invariant |genes| == i
      invariant forall j :: 0 <= j < i ==> genes[j] == (if coins[j] then pai1[j] else pai2[j])
    {
      if coins[i] {
        genes := genes + [pai1[i]];
      } else {
        genes := genes + [pai2[i]];
      }
      i := i + 1;
    }
  }

  // ---------------------------------------------------------------------------
  // Mutation (`mutacao`)

  /** The mutated genome: position `i` is replaced by a fresh visible gene when
      its `uniform(0, 1)` draw is at most `p`, and otherwise left as it was. */
  function Mutated(genes: seq<Gene>, draws: seq<real>, spare: seq<GeneDraw>, p: real, w: nat, h: nat): (m: seq<Gene>)
    requires |genes| <= |draws| && |genes| <= |spare|
    requires forall i :: 0 <= i < |spare| ==> DrawInRange(spare[i], w, h)
    ensures |m| == |genes|
    ensures forall i :: 0 <= i < |genes| && p < draws[i] ==> m[i] == genes[i]
    ensures forall i :: 0 <= i < |genes| && draws[i] <= p ==> Visible(m[i]) && ValidGene(m[i], w, h)
  {
    seq(|genes|, i requires 0 <= i < |genes| =>
      if draws[i] <= p then NewGene(spare[i], false, w, h) else genes[i])
  }

  /** The `mutacao` loop: overwrites, position by position, each gene whose draw
      does not exceed `p`. */
  method Mutate(genes: seq<Gene>, draws: seq<real>, spare: seq<GeneDraw>, p: real, w: nat, h: nat)
    returns (m: seq<Gene>)
    requires |genes| <= |draws| && |genes| <= |spare|
    requires forall i :: 0 <= i < |spare| ==> DrawInRange(spare[i], w, h)
    ensures m == Mutated(genes, draws, spare, p, w, h)
  {
    m := genes;
    var i := 0;
    while i < |genes|
      invariant 0 <= i <= |genes| == |m|
      invariant forall j :: 0 <= j < i ==> m[j] == (if draws[j] <= p then NewGene(spare[j], false, w, h) else genes[j])
      invariant forall j :: i <= j < |genes| ==> m[j] == genes[j]
    {
      if draws[i] <= p {
        m := m[i := NewGene(spare[i], false, w, h)];
      }
      i := i + 1;
    }
  }

  // ---------------------------------------------------------------------------
  // Offspring (`Individuo(pai1, pai2)`)

  /** The random values one offspring consumes: a coin per position for the
      crossover, then a `uniform(0, 1)` draw and a replacement gene's draws per
      position for the mutation. */
  datatype ChildDraw = ChildDraw(coins: seq<bool>, draws: seq<real>, spare: seq<GeneDraw>)

  predicate ChildDrawOk(d: ChildDraw, n: nat, w: nat, h: nat)
  {
    |d.coins| == n && |d.draws| == n && |d.spare| == n &&
    (forall i :: 0 <= i < n ==> 0.0 <= d.draws[i] <= 1.0) &&
    (forall i :: 0 <= i < n ==> DrawInRange(d.spare[i], w, h))
  }

  /** What `Individuo(pai1, pai2)` needs: both parents have at least
      `tamanho_individuo` genes, and the draws are there for every position. */
  ghost predicate CanBreed(cfg: Config, pai1: Individual, pai2: Individual, d: ChildDraw)
  {
    cfg.Valid() &&
    cfg.individualSize <= |pai1.genes| && cfg.individualSize <= |pai2.genes| &&
    ChildDrawOk(d, cfg.individualSize, cfg.width, cfg.height)
  }

  /** The individual `Individuo(pai1, pai2)` builds: crossover, then mutation,
      then the fitness of the final genome. */
  function Offspring(cfg: Config, pai1: Individual, pai2: Individual, d: ChildDraw): Individual
    requires CanBreed(cfg, pai1, pai2, d)
  {
    var n := cfg.individualSize;
    var crossed := Crossed(pai1.genes, pai2.genes, d.coins, n);
    var genes := Mutated(crossed, d.draws, d.spare, cfg.mutationRate, cfg.width, cfg.height);
    Individual(genes, GenomeFitness(cfg, genes))
  }

  /** A child has `tamanho_individuo` genes and the fitness of its genome. Its gene
      at position `i` is the gene at `i` of the parent the coin picked unless the
      mutation draw at `i` fired, and then it is a fresh visible gene. */
  lemma OffspringGenes(cfg: Config, pai1: Individual, pai2: Individual, d: ChildDraw)
    requires CanBreed(cfg, pai1, pai2, d)
    ensures var c := Offspring(cfg, pai1, pai2, d);
      |c.genes| == cfg.individualSize &&
      c.fitness == GenomeFitness(cfg, c.genes) &&
      (forall i :: 0 <= i < cfg.individualSize && cfg.mutationRate < d.draws[i] ==>
        c.genes[i] == (if d.coins[i] then pai1.genes[i] else pai2.genes[i])) &&
      (forall i :: 0 <= i < cfg.individualSize && d.draws[i] <= cfg.mutationRate ==>
        Visible(c.genes[i]) && ValidGene(c.genes[i], cfg.width, cfg.height))
  {
  }

  /** Children of well-formed parents are well-formed. */
  lemma OffspringWellFormed(cfg: Config, pai1: Individual, pai2: Individual, d: ChildDraw)
    requires WellFormed(cfg, pai1) && WellFormed(cfg, pai2)
    requires ChildDrawOk(d, cfg.individualSize, cfg.width, cfg.height)
    ensures WellFormed(cfg, Offspring(cfg, pai1, pai2, d))
  {
    OffspringGenes(cfg, pai1, pai2, d);
    var c := Offspring(cfg, pai1, pai2, d);
    forall i | 0 <= i < |c.genes|
      ensures ValidGene(c.genes[i], cfg.width, cfg.height)
    {
      if cfg.mutationRate < d.draws[i] {
        assert ValidGene(pai1.genes[i], cfg.width, cfg.height);
        assert ValidGene(pai2.genes[i], cfg.width, cfg.height);
      }
    }
  }

  /** `Individuo(pai1, pai2)`: the crossover loop, `mutacao`, then `get_fitness`. */
  method NewChild(cfg: Config, pai1: Individual, pai2: Individual, d: ChildDraw) returns (child: Individual)
    requires CanBreed(cfg, pai1, pai2, d)
    ensures child == Offspring(cfg, pai1, pai2, d)
  {
    var genes := Crossover(pai1.genes, pai2.genes, d.coins, cfg.individualSize);
    genes := Mutate(genes, d.draws, d.spare, cfg.mutationRate, cfg.width, cfg.height);
    child := Individual(genes, GenomeFitness(cfg, genes));
  }

  /** When no mutation draw fires, every gene of the child equals the gene at the
      same position of one of its parents. */
  lemma OffspringWithoutMutation(cfg: Config, pai1: Individual, pai2: Individual, d: ChildDraw)
    requires CanBreed(cfg, pai1, pai2, d)
    requires forall i :: 0 <= i < cfg.individualSize ==> cfg.mutationRate < d.draws[i]
    ensures var c := Offspring(cfg, pai1, pai2, d);
      forall i :: 0 <= i < cfg.individualSize ==> c.genes[i] == pai1.genes[i] || c.genes[i] == pai2.genes[i]
  {
    OffspringGenes(cfg, pai1, pai2, d);
  }
}
