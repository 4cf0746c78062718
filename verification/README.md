# Jam starter utilities: a Dafny model

This project models four small utilities from the jam starter package. Each is a pure function over immutable values, with its properties proved:

- **Raycast hit selection** (`RaycastHits`). Picks the nearest or the furthest hit from a physics query's result buffer. The buffer may be null or empty. Only its first `hitCount` entries come from the current query.
- **Projectile math** (`ProjectileMath`). Samples points along a ballistic arc, in 2D and 3D. Each dimension has an allocating sampler and an in-place one. It also has the launch-angle range test.
- **Trajectory preview** (`Trajectory`). A component that watches three fields. It redraws its line renderer only in a frame where one of them changed.
- **Tag and layer editing** (`TagsAndLayers`). Edits the project's tag list and its 32-slot layer table. Tags are a growable list with a cap. Layers are fixed slots; slots 0-4 are reserved and slot 31 is special.

`real` stands in for `float` throughout. The modules `Results` (`Option`, `Result`, the exception kinds) and `Vectors` (`Vec2`, `Vec3`) hold the shared types.

Each C# loop is modelled as a recursive function, and the function's contract is the loop invariant. The loops that build or fold a result (`NearestScan`, `FurthestScan`, `ArcPrefix2`, `FillArc2`, `LiftPrefix`, and so on) recurse on a prefix: the function's value is the loop's state after its first k iterations. The search loops (`PropertyExists`, `FirstIndexOf`, `FirstEmptySlot`) recurse on the remaining range: the function's value is what the loop returns when started at index i.

The editor operations take the tag list or layer table as an argument. They return the edited list along with the C# return value, so asset loading and saving are not modelled. `NewLayer(name, targetIndex)` can throw; it returns a `Result`, with `Err(IndexOutOfRange(i))` in place of the exception.

## Model

| member | source | states |
|---|---|---|
| `RaycastHits.NearestScan` | Runtime/Scripts/Utilities/Extensions/RaycastHitExtensions.cs:15-24 | After n iterations the candidate is -1 exactly when every distance scanned so far is at or above the `float.MaxValue` sentinel. Otherwise it is the lowest index holding the least distance, and that distance is below the sentinel. |
| `RaycastHits.FurthestScan` | Runtime/Scripts/Utilities/Extensions/RaycastHitExtensions.cs:36-45 | After n iterations the candidate is -1 exactly when every distance is at or below `float.MinValue`. Otherwise it is the lowest index holding the greatest distance. |
| `RaycastHits.GetNearestHit` | Runtime/Scripts/Utilities/Extensions/RaycastHitExtensions.cs:7-27 | A count of 0, a null buffer or an empty buffer gives the default hit. A count of 1 gives `hits[0]`, whatever its distance. Otherwise the result is the first nearest of `hits[0..hitCount)`, or the default hit when every one of those distances is at or above the sentinel. A non-empty buffer must hold at least `hitCount` entries. |
| `RaycastHits.GetFurthestHit` | Runtime/Scripts/Utilities/Extensions/RaycastHitExtensions.cs:28-48 | Same early exits as the nearest search. After them, the result is the first furthest entry of the WHOLE buffer, not just the first `hitCount` entries, or the default hit if none beats `float.MinValue`. |
| `RaycastHits.EmptyBufferGivesDefault` | Runtime/Scripts/Utilities/Extensions/RaycastHitExtensions.cs:9-10 | An empty buffer gives the default hit for every count, in the nearest search and in both furthest searches. No entry is read. |
| `RaycastHits.NearestScanReadsPrefix` | Runtime/Scripts/Utilities/Extensions/RaycastHitExtensions.cs:17-23 | Two buffers that agree on their first n entries give the same nearest-scan state after n iterations. |
| `RaycastHits.FurthestScanReadsPrefix` | Runtime/Scripts/Utilities/Extensions/RaycastHitExtensions.cs:38-44 | Two buffers that agree on their first n entries give the same furthest-scan state after n iterations. |
| `RaycastHits.NearestIgnoresStaleEntries` | Runtime/Scripts/Utilities/Extensions/RaycastHitExtensions.cs:15-26 | Replacing every entry at or beyond `hitCount` with anything at all leaves the nearest hit unchanged. |
| `RaycastHits.FurthestReturnsStaleEntry` | Runtime/Scripts/Utilities/Extensions/RaycastHitExtensions.cs:36-47 | Take reported hits at distances 1 and 2 and a leftover at distance 5. `GetFurthestHit` returns the leftover; the corrected search returns the distance-2 hit. |
| `RaycastHits.GetFurthestHitWithin` | Runtime/Scripts/Utilities/Extensions/RaycastHitExtensions.cs:28-48 | Corrected furthest search, limited to `hits[0..hitCount)`. It has the same early exits and lowest-index tie-breaking. |
| `RaycastHits.FurthestWithinIgnoresStaleEntries` | Runtime/Scripts/Utilities/Extensions/RaycastHitExtensions.cs:36-47 | The corrected furthest search is unaffected by entries at or beyond `hitCount`. |
| `ProjectileMath.SampleTimeEnds` | Runtime/Scripts/Utilities/Physics/ProjectileMath.cs:88-93 | With at least two samples, sample 0 falls at time 0 and the last sample falls exactly at `duration`. |
| `ProjectileMath.ArcPoint2` | Runtime/Scripts/Utilities/Physics/ProjectileMath.cs:94 | The vector expression `v*t + 0.5*g*t*t` equals the kinematic position, computed component by component. |
| `ProjectileMath.ArcPoint3` | Runtime/Scripts/Utilities/Physics/ProjectileMath.cs:140 | The same identity for 3D vectors. |
| `ProjectileMath.ArcPrefix2` | Runtime/Scripts/Utilities/Physics/ProjectileMath.cs:90-95 | After k iterations the array holds k points, and point i is the position at time i·duration/(numPoints−1). |
| `ProjectileMath.ArcPrefix3` | Runtime/Scripts/Utilities/Physics/ProjectileMath.cs:136-141 | The same for the 3D sampler. |
| `ProjectileMath.ProjectileArcPoints` | Runtime/Scripts/Utilities/Physics/ProjectileMath.cs:84-98 | Exactly `numPoints` points. Point i is the kinematic position at its sample time. The first point is the origin and the last is the position at `duration`. |
| `ProjectileMath.ProjectileArcPoints3D` | Runtime/Scripts/Utilities/Physics/ProjectileMath.cs:129-144 | The same length, pointwise, first-point and last-point guarantees, component-wise in 3D. |
| `ProjectileMath.FillArc2` | Runtime/Scripts/Utilities/Physics/ProjectileMath.cs:109-118 | After k in-place iterations the array keeps its length. Its first k entries are samples and the rest are untouched. |
| `ProjectileMath.FillArc3` | Runtime/Scripts/Utilities/Physics/ProjectileMath.cs:155-166 | The same for the 3D in-place sampler. |
| `ProjectileMath.ProjectileArcPointsNonAlloc` | Runtime/Scripts/Utilities/Physics/ProjectileMath.cs:107-119 | A null array throws a null-reference error, and only a null array does. Otherwise the caller's array keeps its length. It ends up equal to what `ProjectileArcPoints` returns for `numPoints = arcPoints.Length`. |
| `ProjectileMath.ProjectileArcPointsNonAlloc3D` | Runtime/Scripts/Utilities/Physics/ProjectileMath.cs:153-168 | The 3D in-place sampler fails on a null array in the same way. Otherwise it agrees with `ProjectileArcPoints3D`. |
| `ProjectileMath.LaunchAngle` | Runtime/Scripts/Utilities/Physics/ProjectileMath.cs:23-42 | In range exactly when `speed^4 >= g*(g*d^2 + 2*yOffset*speed^2)`. When out of range, both out angles are 0. When in range, angle0 is the arctangent of `(speed^2 + root) / (g*d)` and angle1 of `(speed^2 - root) / (g*d)`, where root is the square root of that difference. |
| `ProjectileMath.LaunchNumerators` | Runtime/Scripts/Utilities/Physics/ProjectileMath.cs:36-41 | Take a genuine square root of the discriminant. Then `LaunchAngle` reports the target in range, and its two angles are the arctangents of u/(g·d) for u = speed² + root and u = speed² − root. Both numerators solve u² − 2·speed²·u + operandB = 0, the launch-angle equation for the tangent u/(g·d). The high-angle numerator is never below the low one. |
| `ProjectileMath.LevelGroundRange` | Runtime/Scripts/Utilities/Physics/ProjectileMath.cs:25-34 | Take a target at the same height, g > 0 and d >= 0. It is in range exactly when g·d <= speed², that is, within the maximum range speed²/g. |
| `Trajectory.Created` | Runtime/Scripts/Utilities/Physics/TrajectoryLine.cs:13-21 | A new component has resolution 1, a 5-second preview, zero cached copies (velocity, resolution and preview time) and the dirty flag raised. It keeps the given velocity and renderer. |
| `Trajectory.CacheValues` | Runtime/Scripts/Utilities/Physics/TrajectoryLine.cs:54-65 | The dirty flag becomes true exactly when one of the three watched fields differs from its copy. The velocity differs only when it is at least `Vector2.kEpsilon` (1e-5) away, as Unity's `Vector2 !=` decides; the other two fields are compared exactly. Afterwards every copy is current, and the fields and the line are unchanged. |
| `Trajectory.SampleCount` | Runtime/Scripts/Utilities/Physics/TrajectoryLine.cs:75 | `20 * LineResolution` as a 32-bit `int` product: the unique value in [-2^31, 2^31) congruent to the true product modulo 2^32. So it is exact for resolutions 0 to 107374182 and wraps beyond them. It is never 1. |
| `Trajectory.ResolutionWraps` | Runtime/Scripts/Utilities/Physics/TrajectoryLine.cs:75 | Resolution 214748365 asks for 4294967300 samples, and the wrapped product is 4. |
| `Trajectory.LiftPrefix` | Runtime/Scripts/Utilities/Physics/TrajectoryLine.cs:77-82 | The 3D array has as many points as the 2D one. Each point copies x and y and has z = 0. |
| `Trajectory.RecalcLinePoints` | Runtime/Scripts/Utilities/Physics/TrajectoryLine.cs:67-86 | The renderer receives `20 * LineResolution` positions, the product wrapped to 32 bits. That is 20 to 100 for resolutions 1-5. Each position is the arc sample at that index, lifted to z = 0. Nothing else changes. |
| `Trajectory.Update` | Runtime/Scripts/Utilities/Physics/TrajectoryLine.cs:34-42 | The line is redrawn exactly when a watched field changed since the last frame, and is otherwise left as it was. Each copy ends up exactly equal to its field, and the three watched fields are unchanged. A frame that does not redraw never throws, whatever the resolution. |
| `Trajectory.CacheValuesIdempotent` | Runtime/Scripts/Utilities/Physics/TrajectoryLine.cs:56-64 | A second `CacheValues` with no edit in between clears the dirty flag and changes nothing else. |
| `Trajectory.UpdateSettles` | Runtime/Scripts/Utilities/Physics/TrajectoryLine.cs:34-42 | A second frame with no edit does not redraw. It differs from the first frame's result only in the cleared flag. |
| `Trajectory.UpdateIgnoresStaleFlag` | Runtime/Scripts/Utilities/Physics/TrajectoryLine.cs:21 | A frame's outcome does not depend on the dirty flag it starts with. The initial `true` is overwritten before it is read. |
| `Trajectory.SlowDriftIsNeverDrawn` | Runtime/Scripts/Utilities/Physics/TrajectoryLine.cs:56-64 | Two frames that each move the velocity by 0.000006 leave the line as it was. The velocity then differs from the drawn one by more than 1e-5, because each frame's copy absorbs the drift. |
| `Trajectory.FirstFrameDraws` | Runtime/Scripts/Utilities/Physics/TrajectoryLine.cs:13-21 | The first frame of a new component draws 20 points, because the cached resolution starts at 0. |
| `TagsAndLayers.PropertyExists` | Editor/Scripts/Utilities/TagsAndLayersEditor.cs:274-286 | True exactly when the value occurs at some index in `[start, end)`. |
| `TagsAndLayers.FirstIndexOf` | Editor/Scripts/Utilities/TagsAndLayersEditor.cs:85-98 | The scan stops at the first index holding the value, or finds none when the value is absent. |
| `TagsAndLayers.CreateTag` | Editor/Scripts/Utilities/TagsAndLayersEditor.cs:18-51 | Succeeds exactly when fewer than 10000 tags exist and the name is absent. It then appends the name at the end and keeps the earlier tags. Otherwise the list is unchanged. |
| `TagsAndLayers.NewTag` | Editor/Scripts/Utilities/TagsAndLayersEditor.cs:53-63 | Always attempts the creation, even for a blank name. It returns "Untagged" for a blank name and the name itself otherwise. So a blank tag can be stored while "Untagged" is returned. |
| `TagsAndLayers.RemoveTag` | Editor/Scripts/Utilities/TagsAndLayersEditor.cs:71-103 | Succeeds exactly when the name is present. It deletes the first occurrence and closes the gap, which removes one copy of the name from the multiset. An absent name changes nothing. |
| `TagsAndLayers.TagRoundTrip` | Editor/Scripts/Utilities/TagsAndLayersEditor.cs:18-103 | Creating an absent tag under the cap and then removing it restores the original list. |
| `TagsAndLayers.FirstEmptySlot` | Editor/Scripts/Utilities/TagsAndLayersEditor.cs:137-152 | Finds the lowest free slot at or after the start and below 31, or none when all of them are taken. |
| `TagsAndLayers.CreateLayer` | Editor/Scripts/Utilities/TagsAndLayersEditor.cs:126-160 | Succeeds exactly when the name is absent from slots 0-30 and some slot in 5-30 is free. It then writes the lowest free such slot. Slots 0-4 and 31 are never written, no occupied slot is overwritten, and the table keeps 32 slots. |
| `TagsAndLayers.CreateLayerAt` | Editor/Scripts/Utilities/TagsAndLayersEditor.cs:168-192 | Succeeds exactly when the name is absent from slots 0-30 and the target slot is free. Only the target slot can change, and never when it is occupied. |
| `TagsAndLayers.NewLayer` | Editor/Scripts/Utilities/TagsAndLayersEditor.cs:194-202 | Attempts `CreateLayer` only for a blank name, which is the inverted guard. It always returns the name unchanged. |
| `TagsAndLayers.NewLayerAt` | Editor/Scripts/Utilities/TagsAndLayersEditor.cs:204-215 | Throws exactly when the index is below 5 or above 31, so 31 is admitted. Otherwise it attempts `CreateLayerAt` only for a blank name, and returns the name unchanged. |
| `TagsAndLayers.RemoveLayer` | Editor/Scripts/Utilities/TagsAndLayersEditor.cs:222-254 | Succeeds exactly when the name is present. It empties the first slot holding it; the table keeps its size and every other slot. |
| `TagsAndLayers.LayerRoundTrip` | Editor/Scripts/Utilities/TagsAndLayersEditor.cs:126-254 | A successful `CreateLayer` followed by removing the same name restores the table. |
| `TagsAndLayers.LayerAtRoundTrip` | Editor/Scripts/Utilities/TagsAndLayersEditor.cs:168-254 | A successful targeted creation followed by removing the same name restores the table. |
| `TagsAndLayers.EmptyLayerNameChangesNothing` | Editor/Scripts/Utilities/TagsAndLayersEditor.cs:133-143 | Creating a layer named "" never changes the table, whether or not a slot is targeted. So `NewLayer("")` is a no-op. |
| `TagsAndLayers.NewLayerIgnoresVisibleName` | Editor/Scripts/Utilities/TagsAndLayersEditor.cs:194-202 | On an empty table `CreateLayer("Water")` would succeed, yet `NewLayer("Water")` leaves the table as it is. The corrected version stores the name in slot 5. |
| `TagsAndLayers.LayerDuplicatedPastSlot30` | Editor/Scripts/Utilities/TagsAndLayersEditor.cs:133 | With "Water" already in slot 31, `CreateLayer("Water")` succeeds and "Water" then occupies slots 5 and 31. The corrected check refuses. |
| `TagsAndLayers.BlankLayerDuplicatedAsWritten` | Editor/Scripts/Utilities/TagsAndLayersEditor.cs:133 | The duplicate can be reached through the as-written entry points. On an empty table, `NewLayer(" ", 31)` fills slot 31, and a following `NewLayer(" ")` writes " " into slot 5 as well. |
| `TagsAndLayers.CreateLayerUnique` | Editor/Scripts/Utilities/TagsAndLayersEditor.cs:126-160 | Corrected `CreateLayer` whose duplicate check covers all 32 slots. A present name changes nothing, and a successful creation leaves the name in exactly one slot. |
| `TagsAndLayers.NewLayerIntended` | Editor/Scripts/Utilities/TagsAndLayersEditor.cs:194-202 | Corrected `NewLayer`: a blank name changes nothing and a visible name goes through `CreateLayerUnique`. |
| `TagsAndLayers.NewLayerIntendedCreates` | Editor/Scripts/Utilities/TagsAndLayersEditor.cs:194-202 | Take a visible name absent from the table, with a free user slot. The corrected `NewLayer` stores it in a slot in 5-30, and it occurs exactly once. |
| `TagsAndLayers.CreateLayerAtUnique` | Editor/Scripts/Utilities/TagsAndLayersEditor.cs:168-192 | Corrected targeted creation whose duplicate check covers all 32 slots. It succeeds exactly when the name is absent and the target slot is free. It then writes only that slot, and the name occurs exactly once. |
| `TagsAndLayers.NewLayerAtIntended` | Editor/Scripts/Utilities/TagsAndLayersEditor.cs:204-215 | Corrected `NewLayer(name, targetIndex)`. It has the same range check, then a blank name changes nothing and a visible name goes through `CreateLayerAtUnique`. |
| `TagsAndLayers.NewLayerAtIntendedCreates` | Editor/Scripts/Utilities/TagsAndLayersEditor.cs:204-215 | For an index in 5-31, a visible name absent from the table and a free target slot, the corrected version writes the name into that slot and changes nothing else. |
| `TagsAndLayers.NewLayerAtIgnoresVisibleName` | Editor/Scripts/Utilities/TagsAndLayersEditor.cs:209-212 | On an empty table, `NewLayer("Water", 6)` as written leaves the table unchanged. The corrected version writes "Water" into slot 6. |

## Findings

| source | as written | input that shows it | evidently intended | confidence | as-written member | corrected member |
|---|---|---|---|---|---|---|
| Runtime/Scripts/Utilities/Extensions/RaycastHitExtensions.cs:38 | The furthest search loops to `hits.Length` | Buffer with distances 1, 2, 5 and `hitCount` 2: returns the stale distance-5 entry | Loop to `hitCount`, as `GetNearestHit` does | medium, not executed | `RaycastHits.FurthestReturnsStaleEntry` | `RaycastHits.GetFurthestHitWithin` |
| Editor/Scripts/Utilities/TagsAndLayersEditor.cs:196 | `NewLayer` creates only when `string.IsNullOrWhiteSpace(newLayer)` holds | `NewLayer("Water")` on a table with free slots creates nothing | Create when the name is NOT blank | high, not executed | `TagsAndLayers.NewLayerIgnoresVisibleName` | `TagsAndLayers.NewLayerIntended` |
| Editor/Scripts/Utilities/TagsAndLayersEditor.cs:209 | The targeted `NewLayer` also creates only when the name is blank | `NewLayer("Water", 6)` on an empty table creates nothing | Create when the name is NOT blank | high, not executed | `TagsAndLayers.NewLayerAtIgnoresVisibleName` | `TagsAndLayers.NewLayerAtIntended` |
| Editor/Scripts/Utilities/TagsAndLayersEditor.cs:133 | The duplicate check covers slots 0-30, while `NewLayer(name, 31)` can fill slot 31 | Slot 31 holds "Water"; `CreateLayer("Water")` writes "Water" into slot 5 as well | Check every slot, so that a layer name is never duplicated | medium, not executed | `TagsAndLayers.LayerDuplicatedPastSlot30`, `TagsAndLayers.BlankLayerDuplicatedAsWritten` | `TagsAndLayers.CreateLayerUnique` |

The faithful members (`GetFurthestHit`, `NewLayer`, `NewLayerAt`, `CreateLayer`, `CreateLayerAt`) keep the as-written behaviour.

## Left out

- Asset access (`AssetDatabase.LoadAllAssetsAtPath`, `SerializedObject`, `FindProperty`, `ApplyModifiedProperties`) and every `Debug.Log`. The tag list and layer table are passed in and returned instead.
- `LayerExists` (TagsAndLayersEditor.cs:261-264). It delegates to `LayerMask.NameToLayer`, an engine call outside this model.
- `TagExists` (TagsAndLayersEditor.cs:110-119). It scans indices up to 10000 whatever the tag count. Its behaviour past the end of the list depends on engine semantics that are not part of this model.
- `LaunchSpeed` and `TimeOfFlight`, and the angle values `LaunchAngle` computes with `Mathf.Sqrt` and `Mathf.Atan`. They are trigonometry and square roots in floating point. The caller supplies `Mathf.Sqrt` as `sqrt` and the arctangent of a float quotient as `atanOf`, so no division by `g*d = 0` occurs in the model.
- Float rounding, NaN and infinity. All quantities are `real`, and `Mathf.Pow(speed, 4)` is the exact fourth power.
- ProjectileMath.ProjectileArcPoints: requires `numPoints != 1`. In C#, one point divides by zero and yields NaN or infinity, which reals cannot represent. A negative count, whose allocation throws, is excluded by the `nat` type. The same holds for the 3D and in-place variants.
- RaycastHits.GetNearestHit: requires a non-empty buffer to hold at least `hitCount` entries. For a shorter non-empty buffer C# throws `IndexOutOfRangeException`, which is not modelled as a result. A null or empty buffer is modelled for every count. The same holds for `GetFurthestHitWithin`.
- TagsAndLayers.CreateLayerAt: requires `0 <= targetIndex < 32`. The method is private and only reached after `NewLayer`'s range check.
- Null strings. Names are non-null strings, so `IsNullOrWhiteSpace` reduces to "empty or all white space" (`IsBlank`).
- The engine side of the trajectory component: `Start`, `OnValidate`, `GetComponent<LineRenderer>` and `Physics2D.gravity`. Gravity is a `Vec2` parameter of `RecalcLinePoints` and `Update`. Line 75 passes the scalar `Physics2D.gravity.y` where the sampler takes a `Vector2`. The model uses the general vector. The renderer is represented by the positions it holds.
- Trajectory.RecalcLinePoints: requires the wrapped count `20 * LineResolution` to be non-negative. A negative count makes the array allocation throw, which is not modelled as a result. `Update` needs this only in frames that redraw. The `[Range(1, 5)]` attribute restricts only the inspector.
- The character controllers, their balancer and the other sample scripts under `Samples~` are not part of this model. That includes the sample copy of the trajectory component, which uses `ProjectileArcPointsNonAlloc3D`.
