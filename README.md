# Image-path normaliser of the recipe-sharing frontend

This project models `getImageUrl` from `frontend/src/utils/imageHelper.js`. It
turns a stored image reference into a path the browser can load. The reference may be missing, a full URL, a path from the
site root, or the bare name of a bundled asset. The function is pure and total.
It is modelled as the Dafny function `ImageHelper.GetImageUrl` over
`Option<string>`, where `None` stands for `undefined`/`null`. `None` and
`Some("")` together are JavaScript's falsy case. JavaScript's
`String.prototype.startsWith` is modelled as `ImageHelper.StartsWith`, which
compares characters one by one. Strings are `seq<char>`, sequences of Unicode
scalar values (Dafny's `char`). Its contract shows that this is exactly the
sequence-prefix test.

The function has four cases:

- a missing or empty reference gives `/src/assets/meal1.jpg`;
- an `http://` or `https://` URL is returned unchanged;
- a path starting with `/` is returned unchanged;
- anything else gets `/src/assets` glued in front, with no `/` between.

The last line of the function also tests `startsWith('/src/assets')`. Only
references that do not start with `/` reach that test, so it is never true.
`AssetRootTestDead` proves this. An already-prefixed reference such as
`/src/assets/b.png` is therefore returned unchanged by the root-path case, not
by that test.

## Model

| member | source | states |
|---|---|---|
| ImageHelper.StartsWith | frontend/src/utils/imageHelper.js:6-16 | `startsWith`, compared character by character, holds exactly when the prefix is no longer than the string and equals its first characters |
| ImageHelper.GetImageUrl | frontend/src/utils/imageHelper.js:2-17 | every result is non-empty and starts with `/`, `http://` or `https://`; for a non-empty reference, the reference is a suffix of the result, so nothing of it is dropped or altered |
| ImageHelper.MissingGivesDefault | frontend/src/utils/imageHelper.js:3 | a missing or empty reference yields exactly `/src/assets/meal1.jpg` |
| ImageHelper.AbsoluteUrlUnchanged | frontend/src/utils/imageHelper.js:6-8 | a reference beginning with `http://` or `https://` is returned unchanged |
| ImageHelper.RootPathUnchanged | frontend/src/utils/imageHelper.js:11-13 | a reference beginning with `/` is returned unchanged |
| ImageHelper.AssetRootTestDead | frontend/src/utils/imageHelper.js:11-16 | a reference that fails the `/` test also fails the `/src/assets` test, so that alternative of line 16 is dead |
| ImageHelper.PrefixedExactlyWhenAssetRelative | frontend/src/utils/imageHelper.js:16 | the result is `/src/assets` immediately followed by the reference if and only if the reference is non-empty and is neither a URL nor a root path |
| ImageHelper.FixedPointsAreDisplayPaths | frontend/src/utils/imageHelper.js:3-16 | a reference is returned unchanged if and only if it starts with `/`, `http://` or `https://` |
| ImageHelper.Idempotent | frontend/src/utils/imageHelper.js:3-16 | applying the normaliser to its own result returns that result unchanged |
| ImageHelper.OutputsAreDisplayPaths | frontend/src/utils/imageHelper.js:3-16 | a path is a possible result if and only if it starts with `/`, `http://` or `https://` |
| ImageHelper.Preimages | frontend/src/utils/imageHelper.js:6-16 | a non-empty reference yields a given result if and only if it equals that loadable result, or it is asset-relative and the result is `/src/assets` followed by it |
| ImageHelper.AsWrittenMissesAssetDir | frontend/src/utils/imageHelper.js:16 | as written, no asset-relative reference is resolved into the directory `/src/assets/` |
| ImageHelper.AsWrittenExample | frontend/src/utils/imageHelper.js:16 | `b.png` becomes `/src/assetsb.png`, which is not inside `/src/assets/` |
| ImageHelper.GetImageUrlIntended | frontend/src/utils/imageHelper.js:2-17 | corrected normaliser: every result is non-empty and loadable, it ends with the given reference, and an asset-relative reference lands inside `/src/assets/`; the exact value `/src/assets/` + reference is stated by `IntendedPrefixedExactlyWhenAssetRelative` |
| ImageHelper.IntendedPrefixedExactlyWhenAssetRelative | frontend/src/utils/imageHelper.js:16 | the corrected result is exactly `/src/assets/` followed by the reference if and only if the reference is non-empty and is neither a URL nor a root path |
| ImageHelper.IntendedExample | frontend/src/utils/imageHelper.js:16 | the corrected normaliser turns `b.png` into `/src/assets/b.png` |
| ImageHelper.IntendedAgreesOutsideAssetPaths | frontend/src/utils/imageHelper.js:3-16 | the corrected normaliser agrees with the original if and only if the reference is missing, empty, a URL or a root path |
| ImageHelper.IntendedIdempotent | frontend/src/utils/imageHelper.js:3-16 | the corrected normaliser is idempotent too |

## Findings

| source | as written | input that shows it | evidently intended | confidence | as-written member | corrected member |
|---|---|---|---|---|---|---|
| frontend/src/utils/imageHelper.js:16 | `/src/assets${imagePath}` puts no `/` between the asset directory and the file name | `b.png` gives `/src/assetsb.png` | `/src/assets/b.png`, a file inside the asset directory, like the default `/src/assets/meal1.jpg` of line 3 | medium, not executed | ImageHelper.AsWrittenMissesAssetDir | ImageHelper.GetImageUrlIntended |

The rest of the model states the behaviour as written, because that is what
the application does today. `GetImageUrlIntended` inserts the separator and
leaves out the dead `/src/assets` test. Its properties are proved beside those
of the original. `IntendedAgreesOutsideAssetPaths` shows the fix changes
asset-relative references only.

## Left out

- `frontend/src/api/user.js` (all nine request functions, lines 6-71) is not part of this model. Each function only forwards its argument to a mock store or an HTTP client, and neither is part of this model. Nothing beyond "calls the collaborator" could be stated.
- The mock-mode flag (`frontend/src/api/user.js:4`) is not modelled. It is read from the build environment.
- The multipart `FormData` payload and its header (`frontend/src/api/user.js:66-70`) are not modelled. They are browser APIs.
- Non-string truthy inputs to `getImageUrl`, such as numbers or objects, are not modelled. JavaScript throws at `.startsWith` for them, so the input type is `Option<string>`.
- Strings are sequences of Unicode scalar values (Dafny's `char`), not of UTF-16 code units as in JavaScript. A string holding a lone surrogate, such as `"\uD800.png"`, cannot be represented. A character outside the Basic Multilingual Plane is one `char` here but two code units in JavaScript. No result changes for the strings that can be represented: every prefix the function tests is ASCII, so comparing characters gives the same answer as comparing code units. There is no Unicode normalisation.
