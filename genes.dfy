/** The `Gene` of alg2.py: one semi-transparent triangle, an RGB colour, an
    opacity and three vertices. A gene is never changed after it is made;
    mutation replaces it with a new one. */
module Genes {

  /** Opacity of a gene made for the initial population. */
  const AlphaInvisible: int := 0
  /** Opacity of every gene made by mutation. */
  const AlphaVisible: int := 50

  /** A vertex; its coordinates only feed the rasteriser. */
  datatype Point = Point(x: real, y: real)

  /** The random values one `Gene()` call consumes: three `randint(0, 255)` for
      the colour, then two `uniform` calls per vertex. */
  datatype GeneDraw = GeneDraw(r: int, g: int, b: int, v1: Point, v2: Point, v3: Point)

  datatype Gene = Gene(r: int, g: int, b: int, a: int, v1: Point, v2: Point, v3: Point)

  predicate IsChannel(c: int)
  {
    0 <= c <= 255
  }

  /** `uniform(0, largura_imagem), uniform(0, altura_imagem)` lies in the image's closed box. */
  predicate InImage(p: Point, w: nat, h: nat)
  {
    0.0 <= p.x <= w as real && 0.0 <= p.y <= h as real
  }

  /** What `randint` and `uniform` promise about the values they return. */
  predicate DrawInRange(d: GeneDraw, w: nat, h: nat)
  {
    IsChannel(d.r) && IsChannel(d.g) && IsChannel(d.b) &&
    InImage(d.v1, w, h) && InImage(d.v2, w, h) && InImage(d.v3, w, h)
  }

  /** Every gene of the program: channels in [0, 255], opacity 0 or 50, and
      vertices inside the image. */
  predicate ValidGene(g: Gene, w: nat, h: nat)
  {
    IsChannel(g.r) && IsChannel(g.g) && IsChannel(g.b) &&
    (g.a == AlphaInvisible || g.a == AlphaVisible) &&
    InImage(g.v1, w, h) && InImage(g.v2, w, h) && InImage(g.v3, w, h)
  }

  predicate Visible(g: Gene)
  {
    g.a == AlphaVisible
  }

  /** `Gene(invisivel)`: the colour and vertices are the draws, the opacity is 0
      for an invisible gene and 50 otherwise. */
  function NewGene(d: GeneDraw, invisivel: bool, w: nat, h: nat): (g: Gene)
    requires DrawInRange(d, w, h)
    ensures ValidGene(g, w, h)
    ensures invisivel ==> g.a == 0
    ensures !invisivel ==> g.a == 50 && Visible(g)
    ensures (g.r, g.g, g.b) == (d.r, d.g, d.b)
    ensures (g.v1, g.v2, g.v3) == (d.v1, d.v2, d.v3)
  {
    Gene(d.r, d.g, d.b, if invisivel then AlphaInvisible else AlphaVisible, d.v1, d.v2, d.v3)
  }
}
