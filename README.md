# A genetic algorithm that approximates an image with triangles

This project models the evolutionary engine of `alg2.py`, and proves properties of the model.

- **Genome.** A genome (`Individuo`) is a fixed-length list of semi-transparent triangles (`Gene`): an RGB colour, an opacity, and three vertices inside the target image.
- **Fitness.** A genome is rendered and compared with the target image pixel by pixel. The summed channel difference gives a fitness `1 / (1 + error)`.
- **Population.** A population (`Populacao`) is a list of individuals sorted best first.
- **Generation.** In each generation (`selecao_pais`), every slot from 5 on is overwritten. The new occupant is a child of two distinct members among the first five slots. A child is made by per-gene crossover followed by mutation. Afterwards the list is sorted again.

The files:

- `raster.dfy` (`Raster`): pixels and the pixel difference that `ImageChops.difference` computes. Also the summed difference `sum(map(sum, getdata()))` and the `get_fitness` formula, including its division by zero for an image without pixels.
- `genes.dfy` (`Genes`): `Gene(invisivel)` as a value built from the random numbers it consumes.
- `individual.dfy` (`Individuals`): the program's settings (`Config`), individuals as values, and the fitness of a genome. Also building an individual from scratch, the crossover loop, the `mutacao` loop, and building a child.
- `population.dfy` (`Populations`): `list.sort(reverse=True)` as an insertion sort, and the class `Population` with `lista_fitness`, `get_melhor_fitness`, `get_pior_fitness`, `recombinacao` and `selecao_pais`.

The model makes these choices:

- **Randomness.** All randomness is passed in as explicit inputs:
  - the `randint`/`uniform` values of each gene (`GeneDraw`);
  - one coin per crossover position;
  - one `uniform(0, 1)` draw per position for the mutation;
  - the parent pairs from `random.sample`.
- **Rendering.** The rasteriser `get_imagem` is an uninterpreted function in `Config`. It maps each genome to an image of the target's size.
- **Numbers.** Python floats are modelled as exact reals.
- **Images.** An image is a list of rows of pixels. `getdata()` concatenates the rows.
- **Individuals are values.** A gene or an individual is never modified after it is built, so both are datatype values.
- **Population is an object.** `Population` is a class whose `individuals` field is reassigned by its methods.

## Model

| member | source | states |
|---|---|---|
| Genes.NewGene | alg2.py:15-28 | the gene has channels in [0, 255], opacity 0 when invisible and 50 otherwise, and vertices in the image's closed box; its colour and vertices are the draws |
| Raster.PixelDifference | alg2.py:66 | a pixel of the difference image is black exactly when the two pixels are equal |
| Raster.Difference | alg2.py:66 | the difference image has as many pixels as its inputs |
| Raster.DifferenceAt | alg2.py:66 | pixel k of the difference image is the channel-wise absolute difference of the two pixels k |
| Raster.TotalDifferenceBound | alg2.py:68-69 | the summed difference never exceeds 255 per channel, three channels per pixel, which is `max_pixels` |
| Raster.TotalDifferenceZero | alg2.py:66-68 | the summed difference is zero if and only if the two pixel lists are identical |
| Raster.FlattenSize | alg2.py:67 | `getdata()` of a w-by-h image has w*h pixels |
| Raster.FlattenInjective | alg2.py:67 | two images of the same size with the same pixel data are equal |
| Raster.DifferenceAppend | alg2.py:66-67 | the difference of concatenated pixel lists is the concatenation of their differences |
| Raster.TotalDifferenceAppend | alg2.py:68 | the summed difference of a concatenation is the sum of the parts' summed differences |
| Raster.RowDistanceIsTotal | alg2.py:68 | the distance of one row is the summed difference of that row |
| Raster.ImageDistanceIsTotal | alg2.py:66-68 | the row-by-row distance equals `sum(map(sum, difference(img, target).getdata()))` |
| Raster.ImageFitnessFacts | alg2.py:66-69 | the distance is at most `max_pixels`; it is zero if and only if the images are equal; `max_pixels` is zero exactly for an empty image |
| Raster.Fitness | alg2.py:69-72 | the division fails exactly when `max_pixels` is 0; otherwise the fitness lies in (0, 1], is 1 iff nothing differs, and is at least 1/2 when the difference is within `max_pixels` |
| Raster.FitnessStrictlyDecreasing | alg2.py:70-71 | a larger summed difference gives a strictly smaller fitness |
| Raster.FitnessInjective | alg2.py:70-71 | equal fitness values come from equal summed differences |
| Raster.ImageFitness | alg2.py:65-72 | for images of the target's size, a score exists iff the image has pixels; it lies in [1/2, 1] and is 1 iff the image equals the target |
| Individuals.GenomeFitness | alg2.py:65-72 | the fitness of every genome lies in [1/2, 1] |
| Individuals.PerfectGenome | alg2.py:65-72 | a genome has fitness 1 exactly when its render equals the target |
| Individuals.SeededGenes | alg2.py:38-40 | a genome made from scratch has one valid, invisible gene per draw |
| Individuals.NewRandomIndividual | alg2.py:33-52 | `Individuo()` appends `tamanho_individuo` invisible genes, giving the seeded genome, and is well-formed with its genome's fitness cached |
| Individuals.Crossed | alg2.py:45-49 | the crossed genome has length n, and each gene is the first or the second parent's gene at that position |
| Individuals.Crossover | alg2.py:45-49 | the append loop builds exactly the crossed genome |
| Individuals.Mutated | alg2.py:76-79 | mutation keeps the length; a gene whose draw exceeds the rate is unchanged; one whose draw is at most the rate is a fresh, valid, visible gene |
| Individuals.Mutate | alg2.py:76-79 | the in-place `mutacao` loop produces exactly the mutated genome |
| Individuals.OffspringGenes | alg2.py:33-52 | a child has `tamanho_individuo` genes and its genome's fitness; an unmutated position holds the gene of the parent its coin picked, and a mutated one holds a fresh visible gene |
| Individuals.OffspringWellFormed | alg2.py:33-52 | children of well-formed parents are well-formed |
| Individuals.OffspringWithoutMutation | alg2.py:45-49 | without mutation, every gene of a child comes from one of its parents at the same position |
| Individuals.NewChild | alg2.py:43-52 | `Individuo(pai1, pai2)` (crossover loop, `mutacao`, `get_fitness`) builds exactly the specified offspring |
| Populations.Insert | alg2.py:89 | inserting into a sorted list keeps it sorted and adds exactly the new member |
| Populations.SortDescending | alg2.py:114 | the result is sorted by descending fitness and is a permutation of the input |
| Populations.PermutationWellFormed | alg2.py:114 | sorting a well-formed population leaves it well-formed and of the same size |
| Populations.ElitesBoundBest | alg2.py:107-114 | after the re-sort, the new best is at least as fit as every kept elite, the old best included |
| Populations.EliteCount | alg2.py:108-109 | the slots `selecao_pais` leaves in place are the first `pais_selecionados` slots, or all of them in a smaller population |
| Populations.Children | alg2.py:109-113 | there is one child per non-elite slot |
| Populations.ChildAt | alg2.py:110-113 | child j is the offspring of elites `pairs[j]` with draws `draws[j]` |
| Populations.ChildrenWellFormed | alg2.py:109-113 | children of well-formed elites are well-formed |
| Populations.NextGenerationWellFormed | alg2.py:107-113 | the elites of a well-formed population can breed their children, and elites followed by children form a well-formed population |
| Populations.Population.constructor | alg2.py:83-89 | the new population is sorted, well-formed, `tamanho_populacao` long, and a permutation of the individuals built from the seeds |
| Populations.Population.FitnessList | alg2.py:91-95 | `lista_fitness` has `tamanho_populacao` entries, entry j being the fitness of member j |
| Populations.Population.Best | alg2.py:97-98 | `get_melhor_fitness` returns the member at index 0, which is at least as fit as every member |
| Populations.Population.Worst | alg2.py:100-101 | `get_pior_fitness` returns the member at index `tamanho_populacao - 1`, which is at most as fit as every member |
| Populations.Population.Recombine | alg2.py:103-104 | slot i receives the child of the two parents and no other slot changes |
| Populations.Population.BreedInto | alg2.py:110-113 | one pass of the loop writes, into slot i, the child of the two elites that the pair names |
| Populations.Population.ReplaceNonElites | alg2.py:109-113 | after the loop, the first slots still hold the old elites and every other slot holds its child of those elites |
| Populations.Population.SelectParents | alg2.py:107-114 | `selecao_pais` keeps the size, keeps the population sorted and well-formed, leaves a permutation of the old elites plus their children, and never lowers the best fitness |

## Left out

- Loading the target image with PIL, and every other I/O: the target is a value in `Config`.
- Rendering (`get_imagem`, `ImageDraw.polygon`, alpha blending): it is an uninterpreted function from genomes to images of the target's size. So no property depends on how triangles are drawn.
- The random number generator: every value it would produce is an input. The order in which Python consumes those values is not modelled. In particular, mutation's `uniform` draws happen after all crossover coins, interleaved with the draws of the replacement genes.
- Floating point: fitness is computed on exact reals. Rounding in `1 / (1 + erro)` is not modelled, and neither is the `1.0 *` conversion.
- The driver loop after the class definitions: generations, statistics with `mean`/`std`, printing, periodic saving of the best image, and plotting. These are outside the modelled core.
- Populations.SortDescending: it is proved sorted and a permutation, but not stable. Python's sort keeps equally fit members in their original order; the contract does not promise that, although the insertion in `Insert` does place a new member after every member at least as fit.
- Populations.Population.SelectParents: it inherits the stability gap of `SortDescending`. When several members are equally fit, its contract does not fix their order after the re-sort, and so it does not fix which of them fill the elite slots of the next generation.
- Aliasing: the same `Gene` object can be shared by a parent and its child in Python. Genes are values here, and nothing in the program mutates a gene in place, so sharing is unobservable.
- Populations.Population.Best, Populations.Population.Worst: they require a non-empty population. In Python an empty one raises `IndexError` (`individuos[0]`, `individuos[-1]`), which is not modelled.
- Populations.Population.FitnessList: it requires at least `tamanho_populacao` members, where Python would raise `IndexError`.
- Populations.Population.SelectParents: the requirement that each pair is two distinct indices below 5 is stated as a property of the input. It is what `random.sample(range(0, 5), 2)` returns, not something the method checks.
- Individuals.Config: `Valid` requires a target with at least one pixel, which every loaded image file has. `Raster.Fitness` still models the `ZeroDivisionError` that a zero-pixel target would raise.

Details of the code the model keeps:

- **Vertices.** Vertices lie in the closed box `[0, w] x [0, h]`, since `uniform(0, w)` may return `w`.
- **Fitness range.** The summed difference never exceeds `max_pixels`, so the error is at most 1 and every fitness lies in [1/2, 1]. See `Individuals.GenomeFitness`.
- **Mutation test.** The test is `draw <= prob_mutacao`, so a draw of exactly the rate mutates.
- **`get_melhor_fitness` / `get_pior_fitness`.** They return an individual, not a fitness value.
