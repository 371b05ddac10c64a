/**
  The image-path normaliser of the recipe-sharing frontend
  (frontend/src/utils/imageHelper.js, `getImageUrl`).

  A stored image reference may be missing, a full URL, a path from the site
  root, or a bare file name of a bundled asset; `GetImageUrl` turns each of
  these into a path the browser can load. Strings are modelled as `seq<char>`,
  sequences of Unicode scalar values (Dafny's `char`).
 */
module ImageHelper {

  /** A possibly-missing value: JavaScript's `undefined`/`null` is `None`. */
  datatype Option<+T> = None | Some(value: T)

  /** Image shown when a recipe has no picture of its own. */
  const DefaultImage: string := "/src/assets/meal1.jpg"

  /** The prefix put in front of asset-relative paths, as written (no trailing `/`). */
  const AssetRoot: string := "/src/assets"

  /** The asset directory itself, with its separator. */
  const AssetDir: string := "/src/assets/"

  /**
    JavaScript's `s.startsWith(prefix)` with no position argument: the
    characters of `prefix` are compared with those at the start of `s`, one by one.
   */
  function StartsWith(s: string, prefix: string): (r: bool)
    ensures r <==> |prefix| <= |s| && s[..|prefix|] == prefix
  {
    if prefix == [] then true
    else if s == [] then false
    else s[0] == prefix[0] && StartsWith(s[1..], prefix[1..])
  }

  /** `suffix` is the tail end of `s`. */
  predicate EndsWith(s: string, suffix: string) {
    |suffix| <= |s| && s[|s| - |suffix|..] == suffix
  }

  /** JavaScript's `!imagePath` for a string or a missing value. */
  predicate IsFalsy(imagePath: Option<string>) {
    imagePath.None? || imagePath.value == ""
  }

  /** A path the browser can load as it is: a full URL or a path from the site root. */
  predicate IsDisplayPath(p: string) {
    "http://" <= p || "https://" <= p || "/" <= p
  }

  /** A non-empty reference that must be resolved against the asset directory. */
  predicate IsAssetRelative(s: string) {
    s != "" && !IsDisplayPath(s)
  }

  /**
    `getImageUrl`, as written: the default image for a missing or empty
    reference, full URLs and root paths unchanged, and everything else glued
    to `/src/assets` with no separator. Every result is loadable, and nothing
    of a given reference is dropped.
   */
  function GetImageUrl(imagePath: Option<string>): (r: string)
    ensures |r| > 0 && IsDisplayPath(r)
    ensures !IsFalsy(imagePath) ==> EndsWith(r, imagePath.value)
  {
    if IsFalsy(imagePath) then DefaultImage
    else
      var s := imagePath.value;
      if StartsWith(s, "http://") || StartsWith(s, "https://") then s
      else if StartsWith(s, "/") then s
      else if StartsWith(s, AssetRoot) then s else AssetRoot + s
  }

  /** A missing or empty reference yields the default image. */
  lemma MissingGivesDefault(imagePath: Option<string>)
    requires IsFalsy(imagePath)
    ensures GetImageUrl(imagePath) == DefaultImage
  {
  }

  /** A full `http://` or `https://` URL is returned unchanged. */
  lemma AbsoluteUrlUnchanged(s: string)
    requires "http://" <= s || "https://" <= s
    ensures GetImageUrl(Some(s)) == s
  {
  }

  /** A path from the site root is returned unchanged. */
  lemma RootPathUnchanged(s: string)
    requires "/" <= s
    ensures GetImageUrl(Some(s)) == s
  {
  }

  /**
    The alternative `startsWith('/src/assets')` of the last line is never
    taken: only references that do not start with `/` reach it, and the asset
    root itself starts with `/`.
   */
  lemma AssetRootTestDead(s: string)
    requires !StartsWith(s, "/")
    ensures !StartsWith(s, AssetRoot)
  {
  }

  /**
    The asset root is put in front of the reference exactly when the reference
    is asset-relative, with nothing between the two.
   */
  lemma PrefixedExactlyWhenAssetRelative(s: string)
    ensures GetImageUrl(Some(s)) == AssetRoot + s <==> IsAssetRelative(s)
  {
  }

  /** The references `GetImageUrl` leaves alone are exactly the loadable paths. */
  lemma FixedPointsAreDisplayPaths(s: string)
    ensures GetImageUrl(Some(s)) == s <==> IsDisplayPath(s)
  {
  }

  /** Normalising a normalised path changes nothing. */
  lemma Idempotent(imagePath: Option<string>)
    ensures GetImageUrl(Some(GetImageUrl(imagePath))) == GetImageUrl(imagePath)
  {
  }

  /** The paths `GetImageUrl` can produce are exactly the loadable paths. */
  lemma OutputsAreDisplayPaths(r: string)
    ensures (exists imagePath :: GetImageUrl(imagePath) == r) <==> IsDisplayPath(r)
  {
    if IsDisplayPath(r) {
      FixedPointsAreDisplayPaths(r);
      assert GetImageUrl(Some(r)) == r;
    }
  }

  /**
    A result determines the non-empty reference it came from up to one
    ambiguity: the reference is the result itself, or the result with the
    asset root cut off.
   */
  lemma Preimages(s: string, r: string)
    requires s != ""
    ensures GetImageUrl(Some(s)) == r
        <==> ((s == r && IsDisplayPath(r)) ||
              (AssetRoot <= r && s == r[|AssetRoot|..] && IsAssetRelative(s)))
  {
  }

  /**
    As written, no asset-relative reference is ever resolved into the asset
    directory `/src/assets/`: the file `b.png` becomes `/src/assetsb.png`.
   */
  lemma AsWrittenMissesAssetDir(s: string)
    requires IsAssetRelative(s)
    ensures !(AssetDir <= GetImageUrl(Some(s)))
  {
  }

  /** The concrete case: `b.png` is turned into `/src/assetsb.png`. */
  lemma AsWrittenExample()
    ensures GetImageUrl(Some("b.png")) == "/src/assetsb.png"
    ensures !(AssetDir <= GetImageUrl(Some("b.png")))
  {
  }

  /**
    `getImageUrl` as evidently intended: asset-relative references are
    resolved inside the asset directory, with a `/` between the directory and
    the file name. The dead `startsWith('/src/assets')` test is dropped.
   */
  function GetImageUrlIntended(imagePath: Option<string>): (r: string)
    ensures |r| > 0 && IsDisplayPath(r)
    ensures !IsFalsy(imagePath) ==> EndsWith(r, imagePath.value)
    ensures !IsFalsy(imagePath) && IsAssetRelative(imagePath.value) ==> AssetDir <= r
  {
    if IsFalsy(imagePath) then DefaultImage
    else
      var s := imagePath.value;
      if StartsWith(s, "http://") || StartsWith(s, "https://") then s
      else if StartsWith(s, "/") then s
      else AssetDir + s
  }

  /**
    The corrected normaliser puts the asset directory, separator included,
    immediately in front of the reference exactly when the reference is
    asset-relative.
   */
  lemma IntendedPrefixedExactlyWhenAssetRelative(s: string)
    ensures GetImageUrlIntended(Some(s)) == AssetDir + s <==> IsAssetRelative(s)
  {
  }

  /** The concrete case: the corrected normaliser turns `b.png` into `/src/assets/b.png`. */
  lemma IntendedExample()
    ensures GetImageUrlIntended(Some("b.png")) == "/src/assets/b.png"
  {
  }

  /** The corrected normaliser differs from the original only on asset-relative references. */
  lemma IntendedAgreesOutsideAssetPaths(imagePath: Option<string>)
    ensures GetImageUrlIntended(imagePath) == GetImageUrl(imagePath)
        <==> IsFalsy(imagePath) || !IsAssetRelative(imagePath.value)
  {
  }

  /** The corrected normaliser is idempotent as well. */
  lemma IntendedIdempotent(imagePath: Option<string>)
    ensures GetImageUrlIntended(Some(GetImageUrlIntended(imagePath))) == GetImageUrlIntended(imagePath)
  {
  }
}
