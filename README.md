# FD-D3-Graph: node sizing, modelled in Dafny

The page draws a force-directed graph of telecom companies (federation
members and suppliers) joined by links that carry a transaction count. Only
one part of it computes anything: the node-sizing pipeline inside the
`NaaSGraph` effect in `src/App.jsx`. The pipeline has three stages:

1. **Aggregation.** One `forEach` over the links fills the dictionary
   `transactionCount`. Each link's `value` is added to the entry of its
   `source` and then to the entry of its `target`, and `(t[k] || 0)`
   creates an entry on first sight.
2. **Range and scale.** `Math.min` and `Math.max` are spread over
   `Object.values(transactionCount)`. `scaleNodeSize` maps a count linearly
   from `[minTransaction, maxTransaction]` onto `[5, 20]`.
3. **Per-node and per-link parameters.**
   - The node value is the scaled size.
   - The collision radius is the scaled size plus 10.
   - A link shows `link.value` particles, at speed `0.01 / link.value`.

The project is organised as follows:

- `graph.dfy` (module `GraphModel`) holds the data: nodes, links and the
  graph. It also holds an independent, recursive definition of a node's
  transaction volume (`Volume`, from `OutVolume` and `InVolume`) and of the
  total link value.
- `aggregation.dfy` (module `Aggregation`) holds:
  - the loop itself, as the method `Aggregate`, which updates a map one
    link at a time;
  - the table it must produce (`CountTable`) and the fold of assignments it
    performs (`Tally`);
  - the key order of the JavaScript object (`InsertionOrder`: a key goes
    last when first assigned), which is the order in which `Object.values`
    enumerates the values;
  - the proof that the entries add up to twice the total link value.
- `range.dfy` (module `Range`) holds `Math.min` and `Math.max` over a list of
  integers. This includes JavaScript's results on no arguments: +Infinity
  for the minimum and -Infinity for the maximum.
- `scaling.dfy` (module `Scaling`) holds `scaleNodeSize` over reals. It also
  holds a model of JavaScript division by zero (`JsNumber`, `JsDivide`), so
  the expression can be stated exactly as written.
- `layout.dfy` (module `Layout`) holds:
  - the `nodeVal`, `forceCollide` radius and particle lambdas;
  - the force and arrow constants, kept only as configuration;
  - two small concrete graphs.
- `stepwise.dfy` (module `Stepwise`) gives volumes and totals over a window
  of the link list, so that a literal list can be evaluated a few links at a
  time.
- `embedded.dfy` (module `Embedded`) holds the graph the page ships with, as
  a concrete instance:
  - fourteen companies, as an enumeration whose `Name` gives the id string;
  - nineteen links, in source order;
  - each company's volume, the range 2..30, the total 96 and the entry sum
    192;
  - a few drawn sizes;
  - the zero-valued link from Colt to Lumen.

Ids are a type parameter `Id` throughout. The generic part of the model
holds for any id type with equality, including `string`.

Both divisions in the source are unguarded:

- `scaleNodeSize` divides by `maxTransaction - minTransaction`.
- The particle speed divides by `link.value`.

The model states each in two ways. The first is over reals with the
precondition the source silently relies on: `lo < hi` for
`Scaling.ScaleNodeSize` and `value != 0` for `Layout.ParticleSpeed`. The
second is exactly as written, with JavaScript's NaN and Infinity
(`Scaling.ScaleNodeSizeAsWritten`, `Layout.ParticleSpeedAsWritten`).

The intended behaviour in these two cases is not in the code:

- maxSize for every node when the range is degenerate;
- no flow for a link of value 0.

The model follows the code. The guards appear only as labelled departures
(`Scaling.GuardedScaleNodeSize`, `Layout.GuardedNodeVal`,
`Layout.GuardedParticleSpeed`), each proved to agree with the source
wherever the source is defined.

## Model

| member | source | states |
|---|---|---|
| GraphModel.EndpointsAreMentioned | src/App.jsx:78-84 | the ids the loop touches are exactly those that occur as the source or the target of some link |
| GraphModel.VolumeSnoc | src/App.jsx:80-83 | one more link adds its value to its source's volume and to its target's volume, and leaves every other volume alone |
| GraphModel.UnmentionedVolume | src/App.jsx:78-84 | an id that no link mentions has outgoing, incoming and total volume 0 |
| GraphModel.SelfLoopCountsTwice | src/App.jsx:80-83 | a link from a node to itself adds twice its value, because the source and target assignments are separate |
| GraphModel.VolumeNonNegative | src/App.jsx:78-84 | with non-negative link values, every outgoing and incoming volume is non-negative |
| Aggregation.OrZero | src/App.jsx:81 | `(t[k] \|\| 0)` read as JavaScript does, where a missing entry and an entry of 0 both fall through to 0: the result is always the entry when there is one, and 0 when there is none. Skipping a 0 entry (Lumen after Colt→Lumen, line 64) loses nothing |
| Aggregation.Bump | src/App.jsx:80-83 | one assignment `t[k] = (t[k] \|\| 0) + v`: the keys gain `k`, entry `k` becomes its old value or 0 plus `v`, and every other entry is unchanged |
| Aggregation.Aggregate | src/App.jsx:78-84 | after the loop, the dictionary has an entry exactly for each mentioned id, and each entry is that id's volume. It equals `CountTable`, and the keys were created in `InsertionOrder` |
| Aggregation.CountTableMeaning | src/App.jsx:78-84 | the intended table has keys exactly the mentioned ids and values exactly their volumes |
| Aggregation.CountTableStep | src/App.jsx:79-84 | one iteration, meaning the two assignments `t[k] = (t[k] \|\| 0) + v`, turns the table of a prefix into the table of the prefix plus one link |
| Aggregation.Tally | src/App.jsx:79-84 | the loop as a fold of its assignments: after any prefix, the keys are exactly the prefix's endpoints. `TallyIsCountTable` proves the values, and `Aggregate` is proved against it |
| Aggregation.TallyIsCountTable | src/App.jsx:79-84 | the map built by the sequence of assignments is exactly the intended table, for every link list |
| Aggregation.InsertionOrderKeys | src/App.jsx:78-86 | the object's key order lists every key of the dictionary exactly once and nothing else |
| Aggregation.ObjectValues | src/App.jsx:86-87 | `Object.values` has one value per key, the i-th being the entry of the i-th key |
| Aggregation.CountValues | src/App.jsx:86-87 | `Object.values(transactionCount)`: one value per key of the key order, the i-th being the entry of the i-th key, and empty exactly when there are no links |
| Aggregation.VolumeSumIsTwiceTotal | src/App.jsx:78-84 | over any distinct list of ids that covers every endpoint, the volumes add up to twice the sum of the link values |
| Aggregation.TotalIsTwiceLinkSum | src/App.jsx:78-87 | the values `Object.values(transactionCount)` enumerates add up to exactly twice the sum of all link values |
| Range.MathMin | src/App.jsx:86 | `Math.min(...xs)` is +Infinity exactly when xs is empty. Otherwise it is an element of xs that is no greater than any element |
| Range.MathMax | src/App.jsx:87 | `Math.max(...xs)` is -Infinity exactly when xs is empty. Otherwise it is an element of xs that is no smaller than any element |
| Range.MinTransaction | src/App.jsx:86 | `minTransaction` is +Infinity exactly when there are no links, and finite otherwise. `CountsWithinRange` and `RangeIsAttainedBounds` prove it is the least entry |
| Range.MaxTransaction | src/App.jsx:87 | `maxTransaction` is -Infinity exactly when there are no links, and finite otherwise. `CountsWithinRange` and `RangeIsAttainedBounds` prove it is the greatest entry |
| Range.EntryIsEnumerated | src/App.jsx:86-87 | every entry of the dictionary is among the spread values |
| Range.EnumeratedIsEntry | src/App.jsx:86-87 | every spread value is the entry of some id |
| Range.CountsWithinRange | src/App.jsx:86-87 | with at least one link both bounds are finite, every entry lies between them, and each bound is attained by some entry |
| Range.RangeIsAttainedBounds | src/App.jsx:86-87 | conversely, bounds respected by every entry and attained by two entries are `minTransaction` and `maxTransaction` |
| Range.EqualEntriesDegenerate | src/App.jsx:86-87 | when all entries are equal, the minimum and the maximum coincide |
| Range.NoLinksNoRange | src/App.jsx:78-87 | without links the dictionary is empty, `minTransaction` is +Infinity and `maxTransaction` is -Infinity |
| Scaling.JsDivide | src/App.jsx:93 | JavaScript `/` on finite operands: the result is finite exactly when the divisor is non-zero, and then times the divisor it gives back the dividend. For a zero divisor it is NaN when the dividend is 0 and +Infinity when it is positive |
| Scaling.ScaleNodeSize | src/App.jsx:89-97 | for a non-empty range, the minimum maps to 5, the maximum maps to 20, and every value in between maps into [5, 20] |
| Scaling.ScaleStrictlyIncreasing | src/App.jsx:89-97 | a larger count gets a strictly larger size |
| Scaling.ScaleIsLinear | src/App.jsx:89-97 | the difference of two sizes is the difference of the counts times the slope 15 / (max - min) |
| Scaling.ScaleNodeSizeAsWritten | src/App.jsx:89-97 | the expression exactly as written agrees with `ScaleNodeSize` for a non-empty range. For min == max it is never a finite number, and at the common value it is NaN |
| Scaling.GuardedScaleNodeSize | src/App.jsx:89-97 | a departure: maxSize when min == max, the source's value otherwise, and always within [5, 20] for a value in range |
| Layout.NodeVal | src/App.jsx:108 | a node's value is 5 at the minimum count and 20 at the maximum, and lies in [5, 20] |
| Layout.CollideRadius | src/App.jsx:119 | the collision radius is the node value plus exactly 10, so it exceeds the node value and lies in [15, 30] |
| Layout.ParticleCount | src/App.jsx:111 | `linkDirectionalParticles`: the link's value. `ParticleFlowIsConstant` proves count times speed is 0.01, and `ZeroValueLink` proves the zero link has no particles |
| Layout.ParticleSpeed | src/App.jsx:112 | for a non-zero value, speed times value is 0.01, and the speed is positive for a positive value |
| Layout.ParticleSpeedAsWritten | src/App.jsx:112 | `0.01 / link.value` as written: the real speed for a non-zero value, +Infinity for value 0 |
| Layout.ParticleFlowIsConstant | src/App.jsx:111-112 | particle count times particle speed is 0.01 on every link of non-zero value |
| Layout.HeavierLinkIsSlower | src/App.jsx:112 | between two positive link values, the larger gets the strictly slower particles |
| Layout.GuardedParticleSpeed | src/App.jsx:111-112 | a departure: the source's speed for a non-zero value. For a value of 0 it gives speed 0, on a link that has no particles anyway, and never a negative speed for a non-negative value |
| Layout.NodeSizing | src/App.jsx:78-119 | for every mentioned node, when the observed range is non-empty: it has an entry, and its value is 5 at the minimum, 20 at the maximum and in [5, 20]. Its collision radius exceeds its value and lies in [15, 30] |
| Layout.LargerVolumeLargerNode | src/App.jsx:108-119 | a node with a larger count gets a strictly larger value and a strictly larger collision radius |
| Layout.GuardedNodeVal | src/App.jsx:108 | a departure: agrees with `NodeVal` on a non-empty range. On a degenerate range it gives 20 where the source's expression is not a number |
| Layout.SingleLinkSizes | src/App.jsx:78-97 | one link A→B of value v: both entries are v, min == max == v, the source's sizes are NaN for both nodes, and the guarded size is 20 for both |
| Layout.ZeroThenTenTable | src/App.jsx:78-84 | links A→B of value 0 and B→C of value 10 give exactly the keys A, B and C, holding 0, 10 and 10 |
| Layout.ZeroThenTenSizes | src/App.jsx:78-108 | links A→B of value 0 and B→C of value 10: A has an entry of 0 and B and C have 10. The range is 0..10, A is drawn at 5, and B and C at 20 |
| Embedded.NamesAreDistinct | src/App.jsx:36-49 | the fourteen node ids are pairwise different strings |
| Embedded.EveryNodeIsMentioned | src/App.jsx:34-76 | every node of `gData.nodes` is the source or the target of some link of `gData.links`, so every company gets an entry |
| Embedded.ColtVolume | src/App.jsx:52-74 | Colt's volume is 16 |
| Embedded.ConsoleConnectVolume | src/App.jsx:52-74 | Console Connect's volume is 17 |
| Embedded.TelstraVolume | src/App.jsx:52-74 | Telstra's volume is 15 |
| Embedded.OrangeVolume | src/App.jsx:52-74 | Orange's volume is 30 |
| Embedded.SparkleVolume | src/App.jsx:52-74 | Sparkle's volume is 26 |
| Embedded.TataCommunicationsVolume | src/App.jsx:52-74 | Tata Communications' volume is 20 |
| Embedded.DeutscheTelekomVolume | src/App.jsx:52-74 | Deutsche Telekom's volume is 13 |
| Embedded.LumenVolume | src/App.jsx:52-74 | Lumen's volume is 13, despite the zero-valued link from Colt |
| Embedded.ATTVolume | src/App.jsx:52-74 | AT&T's volume is 5 |
| Embedded.VerizonVolume | src/App.jsx:52-74 | Verizon's volume is 8 |
| Embedded.RetelitVolume | src/App.jsx:52-74 | Retelit's volume is 7 |
| Embedded.OrchestVolume | src/App.jsx:52-74 | Orchest's volume is 10 |
| Embedded.CirionVolume | src/App.jsx:52-74 | Cirion's volume is 2 |
| Embedded.StarhubVolume | src/App.jsx:52-74 | Starhub's volume is 10 |
| Embedded.EmbeddedTable | src/App.jsx:52-84 | the dictionary the loop leaves on the shipped graph has an entry for every company, holding the volume listed above |
| Embedded.EmbeddedRange | src/App.jsx:52-87 | on the shipped graph `minTransaction` is 2 (Cirion) and `maxTransaction` is 30 (Orange), so the scale's division is defined |
| Embedded.EmbeddedTotal | src/App.jsx:52-74 | the shipped links carry 96 transactions in all |
| Embedded.EmbeddedEntrySum | src/App.jsx:52-87 | the enumerated entries add up to 192, twice the total |
| Embedded.EmbeddedSizes | src/App.jsx:52-119 | on the shipped graph, with the bounds the page computes (finite, and min below max): Orange is drawn at 20, Cirion at 5 and Colt at 12.5, and Orange's collision radius is 30 |
| Embedded.ZeroValueLink | src/App.jsx:64-112 | the ninth link, from Colt to Lumen, has value 0. It has no particles, its speed as written is +Infinity, and the guarded speed is 0. Every other link has a positive value |

## Left out

- React plumbing (`useRef`, `useEffect`, the JSX container) is UI lifecycle, not logic.
- The force-graph builder calls and the d3 forces can only be named, not modelled: the physics belongs to the external libraries. The constants are recorded in `Layout` as configuration: charge -300, link distance 200 and strength 1, collide strength 0.7, arrow length 5 and relative position 1. The center force that is set and then removed is not recorded.
- Canvas drawing in `nodeCanvasObject` (the circle, the logo at three times the size, the label and font) draws against a foreign 2D context. Its `scaleNodeSize` call is the same function modelled here.
- The asynchronous logo loading, the image cache and `refresh()` are asynchronous I/O and callbacks, and the logo URL table is only data for network fetches.
- `colorScale` is never used, and colouring is delegated to `nodeAutoColorBy`. `nodeLabel` only returns the id.
- JavaScript numbers are modelled as `int` for link values and counts and `real` for sizes, so floating-point rounding is not modelled. Of IEEE behaviour only NaN and +/-Infinity from a zero divisor are modelled, and only where the two divisions need them. Link values are integers, as in the shipped data.
- Ids are a type parameter compared by equality, and the shipped graph uses an enumeration with a `Name` for each company. Property-key peculiarities of JavaScript objects are not modelled: integer-like keys enumerating first, and inherited keys such as `__proto__`.
- Embedded: the exact key order of the shipped dictionary is not evaluated. The range, the sum and the sizes on the shipped graph are derived from the generic lemmas, which hold for every key order.
- Layout.NodeVal: requires the node to have an entry and the range to be non-empty. For a listed node that no link mentions, the source would compute `scaleNodeSize(undefined)`, which is NaN. The shipped graph has no such node (`Embedded.EveryNodeIsMentioned`).
- Scaling.ScaleNodeSize: stated over reals with `lo < hi`, because the source's unguarded division is otherwise not a number. That case is covered by `Scaling.ScaleNodeSizeAsWritten`.
- Layout.ParticleSpeed: stated with `value != 0`. The zero case is covered by `Layout.ParticleSpeedAsWritten`.

## Findings

| source | as written | input that shows it | evidently intended | confidence | as-written member | corrected member |
|---|---|---|---|---|---|---|
| src/App.jsx:93 | `(value - minTransaction) / (maxTransaction - minTransaction)` with no check that the range is non-empty | a single link A→B of value 10: both entries are 10, so min == max and every node's size is 0/0 = NaN | when min == max, every node gets maxSize (20) | high (derived by proof, not executed) | Layout.SingleLinkSizes | Layout.GuardedNodeVal |
| src/App.jsx:112 | `0.01 / link.value` with no check for a zero value | the shipped link from Colt to Lumen of value 0 (src/App.jsx:64): speed +Infinity | a zero-valued link has no flow: speed 0, alongside its 0 particles | high (derived by proof, not executed) | Embedded.ZeroValueLink | Layout.GuardedParticleSpeed |
