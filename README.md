# Disc: a verified model of the video shop's rated catalog item

This project models the `Disc` entity of the video shop's catalog
(`src/main/java/videoshop/catalog/Disc.java`). A disc is a DVD or a Blu-ray.
It has a genre and an image, an append-only list of comments, and an
overall rating. The rating is cached and is recomputed after every new
comment: the ratings of all comments are summed, the sum is divided by
the number of comments, and the mean is rounded to two decimal places
with the class's static `round` helper.

The model has three modules:

- `JavaMath` (`java_math.dfy`) covers the parts of Java's `double` and
  `long` arithmetic that the rating depends on. A finite `double` is an
  exact real. NaN and the two infinities are values of their own. It
  models the division `added / comments.size()`, in which `0.0 / 0` is
  NaN, and the product `value * factor`. It also models `Math.round`:
  the closest `long` with ties going up, 0 for NaN, and saturation at the
  bounds of a `long`. Two more pieces are the factor
  `(long) Math.pow(10, places)` and the quotient `(double) tmp / factor`.
- `Rounding` (`rounding.dfy`) models `Disc.round(value, places)`: the
  `IllegalArgumentException` for a negative `places` (as a `Result`),
  and the scale, round and divide arithmetic. It also holds the lemmas
  about rounding.
- `Catalog` (`disc.dfy`) has the `DiscType` enum, the `Comment` value,
  the rating of a comment list as a specification function, and the
  class `Disc`. The constructor, `calculateRating` (with its summation
  loop) and `addComment` are methods that change the object's fields.
  `Valid()` is the cache invariant: the stored rating is the rating of
  the whole comment list. The getters are functions that read the object.

A disc without comments has rating 0. The empty sum is `0.0`, `0.0 / 0`
is NaN, and `Math.round(NaN)` is 0, so the stored rating is exactly 0 and
never NaN. The model keeps NaN as a value and proves this outcome rather
than assuming it (`Catalog.OverallRating`, `Catalog.Disc.constructor`).

Ties go towards positive infinity, as `Math.round` sends them. This is
not rounding half away from zero: -0.125 rounds to -0.12, not -0.13
(`Rounding.RoundTiesUp`).

The getters `getGenre`, `getImage` and `getType` are the functions
`Catalog.Disc.GetGenre`, `GetImage` and `GetType`. Each returns its field
and carries no contract. What the constructor stores in those fields is
stated by `Catalog.Disc.constructor`. That `addComment` leaves them alone
is stated by `Catalog.Disc.AddComment`.

## Model

| member | source | states |
|---|---|---|
| `JavaMath.Divide` | src/main/java/videoshop/catalog/Disc.java:80 | The quotient of the sum by the count is finite exactly when the count is positive, and then it times the count gives back the sum. It is NaN exactly for `0.0 / 0` and positive infinity exactly for a positive sum over 0. |
| `JavaMath.Scale` | src/main/java/videoshop/catalog/Disc.java:93 | Multiplying a finite value by a positive factor gives the finite product `v * f`. NaN and each infinity, with its sign, come back unchanged. |
| `JavaMath.ClampToLong` | src/main/java/videoshop/catalog/Disc.java:94 | The result always lies in the range of a `long`. It equals the input inside that range and the nearer bound outside it. |
| `JavaMath.MathRound` | src/main/java/videoshop/catalog/Disc.java:94 | `Math.round` gives a `long`. NaN gives 0, the infinities give the bounds, and for a value `v` inside the range the result `k` satisfies `v - 1/2 < k <= v + 1/2`: it is the closest integer, with ties going up. A finite value at or above `Long.MAX_VALUE` gives `Long.MAX_VALUE`, and one at or below `Long.MIN_VALUE` gives `Long.MIN_VALUE`. |
| `JavaMath.MathRoundLong` | src/main/java/videoshop/catalog/Disc.java:94 | `Math.round` of a `long` converted to double gives that `long` back. |
| `JavaMath.PowerOfTenFactor` | src/main/java/videoshop/catalog/Disc.java:92 | The factor is at least 1. It is exactly `10^places` for up to 18 places. From 19 places on the cast saturates at `Long.MAX_VALUE`, which enters the double arithmetic as `2^63`. |
| `JavaMath.DivideLong` | src/main/java/videoshop/catalog/Disc.java:95 | The quotient `(double) tmp / factor`, multiplied by the factor, gives `tmp` back. |
| `Rounding.Round` | src/main/java/videoshop/catalog/Disc.java:89-96 | The helper fails with `IllegalArgumentException` if and only if `places < 0`; otherwise it succeeds with the scaled, rounded and divided value. |
| `Rounding.RoundHalfUp` | src/main/java/videoshop/catalog/Disc.java:92-95 | For every value and number of places, the result times the factor is the `long` that `Math.round` gives for the value times the factor. |
| `Rounding.RoundNaN` | src/main/java/videoshop/catalog/Disc.java:93-95 | NaN rounds to 0 for every number of places. |
| `Rounding.RoundScaledBack` | src/main/java/videoshop/catalog/Disc.java:92-95 | A value rounded to two places, times 100, is the `long` that `Math.round` gave for the value times 100. |
| `Rounding.RoundNearest` | src/main/java/videoshop/catalog/Disc.java:92-95 | When `100 * v` fits in a `long`, the value rounded to two places, times 100, is the integer `k` with `100v - 1/2 < k <= 100v + 1/2`. |
| `Rounding.RoundIdempotent` | src/main/java/videoshop/catalog/Disc.java:89-96 | Rounding an already rounded value to two places changes nothing. |
| `Rounding.RoundMonotone` | src/main/java/videoshop/catalog/Disc.java:89-96 | Rounding to two places keeps the order of its arguments. |
| `Rounding.RoundWhole` | src/main/java/videoshop/catalog/Disc.java:89-96 | A whole number whose hundredfold fits in a `long` rounds to itself. |
| `Rounding.RoundTiesUp` | src/main/java/videoshop/catalog/Disc.java:94 | Ties go towards positive infinity: 0.125 rounds to 0.13 and -0.125 rounds to -0.12. |
| `Catalog.TotalRating` | src/main/java/videoshop/catalog/Disc.java:75-78 | The sum of the comments' ratings, which the loop of `calculateRating` accumulates. It carries no contract of its own. `Catalog.Disc.CalculateRating` proves the loop equal to it, and `Catalog.TotalRatingAppend` and `Catalog.TotalRatingBounds` state its properties. |
| `Catalog.TotalRatingAppend` | src/main/java/videoshop/catalog/Disc.java:76-78 | Appending a comment adds its rating to the total. This is the step that keeps the summation loop's invariant. |
| `Catalog.TotalRatingBounds` | src/main/java/videoshop/catalog/Disc.java:76-78 | If every rating lies in `[lo, hi]`, the total of `n` comments lies in `[n*lo, n*hi]`. |
| `Catalog.MeanRating` | src/main/java/videoshop/catalog/Disc.java:80 | The mean is NaN exactly when there are no comments and finite exactly when there are some. |
| `Catalog.OverallRating` | src/main/java/videoshop/catalog/Disc.java:80 | With no comments the rating is 0. It always has at most two decimal places: the rating times 100 is an integer. |
| `Catalog.OverallRatingAfterAppend` | src/main/java/videoshop/catalog/Disc.java:102-104 | The full rescan after an append gives the same rating as a running sum would: the old total plus the new rating, over one more comment, rounded to two places. |
| `Catalog.OverallRatingIsRoundedMean` | src/main/java/videoshop/catalog/Disc.java:80 | For a non-empty list whose mean times 100 fits in a `long`, the rating times 100 is the integer closest to the mean times 100, with ties going up. |
| `Catalog.OverallRatingBetween` | src/main/java/videoshop/catalog/Disc.java:80 | If every rating lies in `[lo, hi]`, so does the overall rating. |
| `Catalog.RatingScenario` | src/main/java/videoshop/catalog/Disc.java:102-105 | Comments rated 4, 5 and 3 give 4.0. A fourth comment rated 2 gives 3.5. |
| `Catalog.Disc.constructor` | src/main/java/videoshop/catalog/Disc.java:58-69 | The image, genre and type are stored as passed. The comment list is empty, the rating is 0, and the cache invariant holds. |
| `Catalog.Disc.CalculateRating` | src/main/java/videoshop/catalog/Disc.java:74-81 | The loop's running sum equals the total of the comments visited so far. Afterwards the stored rating is the rating of the whole list and nothing else has changed. |
| `Catalog.Disc.AddComment` | src/main/java/videoshop/catalog/Disc.java:102-105 | The new comment is appended at the end and all earlier comments stay in order, duplicates included. The cache invariant is re-established, and genre, image and type are unchanged. |
| `Catalog.Disc.GetComments` | src/main/java/videoshop/catalog/Disc.java:112-114 | The getter returns exactly the disc's comment list, and that list is the one the cached rating summarises. The model returns the list as an immutable value. This is stronger than the source: see `GetComments` under "Left out". |
| `Catalog.Disc.GetOverallRating` | src/main/java/videoshop/catalog/Disc.java:124-126 | The getter returns the rating of all comments so far. |
| `Catalog.Disc.GetGenre` | src/main/java/videoshop/catalog/Disc.java:98-100 | Returns the stored genre and carries no contract. `Catalog.Disc.constructor` and `Catalog.Disc.AddComment` fix what is stored. |
| `Catalog.Disc.GetImage` | src/main/java/videoshop/catalog/Disc.java:116-118 | Returns the stored image and carries no contract. `Catalog.Disc.constructor` and `Catalog.Disc.AddComment` fix what is stored. |
| `Catalog.Disc.GetType` | src/main/java/videoshop/catalog/Disc.java:120-122 | Returns the stored disc type and carries no contract. `Catalog.Disc.constructor` and `Catalog.Disc.AddComment` fix what is stored. |

## Left out

- The inherited `name` and `price`: `Product` and `Money` are framework classes that are not part of this model, and the constructor only passes them through.
- The persistence mapping (`@Entity`, `@OneToMany` with its cascade) and the private no-argument constructor that exists only for the persistence framework.
- Binary floating point: finite doubles are exact reals, so representation error is not modelled. For example, in the source 2.005 may not round to 2.01. The model also treats the conversion of a large `long` to `double` as exact.
- `Comment`: `Comment.java` is not part of this model. A comment is a value with an integer rating, which is all that the disc reads from it. Comments with equal ratings are therefore equal values here, while in the source they are distinct objects.
- GetComments: the source returns the live `ArrayList`, typed only as `Iterable`. A caller can remove comments through its iterator's `remove()`, or by casting back to `List` and calling `clear()`. Either way the comment list shrinks and the cached rating goes stale. The model returns the sequence as an immutable value, so it promises more than the source: comments never shrink and `Valid()` always holds. Removal through the returned view, and the stale rating it leaves, are not modelled.
- RoundScaledBack: stated for two places only, the one number of places the disc uses.
- RoundNearest: stated for two places only, the one number of places the disc uses.
- RoundIdempotent: stated for two places only, the one number of places the disc uses.
- RoundMonotone: stated for two places only, the one number of places the disc uses.
- RoundWhole: stated for two places only, the one number of places the disc uses.
- AddComment: a `null` comment is not modelled, because `Comment` here is a value and cannot be null. In the source `comments.add(null)` succeeds, and `calculateRating` then throws a `NullPointerException` at `c.getRating()`. The null stays in the list, the cached rating is stale, and every later `addComment` throws too.
- Concurrent use of one disc: the source does not synchronise `addComment`, and the model is sequential.
