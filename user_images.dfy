/**
 * `analyze_user_images_in_file`: every "Updated IMAGE_NUMBER to" line adds its last word
 * to the unique images and makes it the last image; every other line containing `UPDATED`
 * marks the last image, if there is one, as processed.
 */
module UserImages {
  import opened Wrappers
  import opened Text
  import opened FileNames

  const ImageMarker := "Updated IMAGE_NUMBER to"
  const UpdatedMarker := "UPDATED"

  /** What the loop sees of one line. */
  datatype ImageTag = ImageTag(image: Option<string>, updated: bool)

  /** A string with a non-blank character splits into at least one word. */
  lemma {:induction false} SplitNonEmpty(s: string, i: nat)
    requires i < |s| && NotSpace(s[i])
    ensures Split(s) != []
    decreases |s|
  {
    if IsSpace(s[0]) {
      SplitNonEmpty(s[1..], i - 1);
    }
  }

  /**
   * `parts = line.strip().split(); parts[-1]` on an image line (`split()` already drops the
   * whitespace `strip()` removes). The marker's first letter makes `parts` non-empty.
   */
  function TagOf(line: string): (t: ImageTag)
    ensures t.image.Some? ==> t.image.value != [] && Contains(line, ImageMarker)
    ensures t.image.None? ==> !Contains(line, ImageMarker)
  {
    match FindFrom(line, ImageMarker, 0)
    case Some(p) =>
      assert line[p] == ImageMarker[0];
      SplitNonEmpty(line, p);
      var parts := Split(line);
      ImageTag(Some(parts[|parts| - 1]), Contains(line, UpdatedMarker))
    case None => ImageTag(None, Contains(line, UpdatedMarker))
  }

  function Tags(lines: seq<string>): (r: seq<ImageTag>)
    ensures |r| == |lines|
  {
    seq(|lines|, i requires 0 <= i < |lines| => TagOf(lines[i]))
  }

  /** The loop's sets and `last_img` after the lines below `n`. */
  datatype ImageSets = ImageSets(unique: set<string>, processed: set<string>, last: Option<string>)

  function ImagesBelow(tags: seq<ImageTag>, n: nat): (st: ImageSets)
    requires n <= |tags|
  {
    if n == 0 then ImageSets({}, {}, None)
    else
      var st := ImagesBelow(tags, n - 1);
      var t := tags[n - 1];
      if t.image.Some? then st.(unique := st.unique + {t.image.value}, last := t.image)
      else if t.updated && st.last.Some? && st.last.value != [] then st.(processed := st.processed + {st.last.value})
      else st
  }

  /** The last image named below `n`. */
  function LastImage(tags: seq<ImageTag>, n: nat): (r: Option<string>)
    requires n <= |tags|
  {
    if n == 0 then None else if tags[n - 1].image.Some? then tags[n - 1].image else LastImage(tags, n - 1)
  }

  /** A line that marks an image processed: an `UPDATED` line below an image line, not itself one. */
  predicate Marks(tags: seq<ImageTag>, i: nat, img: string)
    requires i < |tags|
  {
    tags[i].image.None? && tags[i].updated && LastImage(tags, i) == Some(img) && img != []
  }

  /**
   * The unique images are the words the image lines name; the processed ones are the images
   * an `UPDATED` line came after; so every processed image is a unique one.
   */
  lemma {:induction false} ImagesBelowMeaning(tags: seq<ImageTag>, n: nat)
    requires n <= |tags|
    ensures ImagesBelow(tags, n).last == LastImage(tags, n)
    ensures forall img :: img in ImagesBelow(tags, n).unique <==>
      exists i :: 0 <= i < n && tags[i].image == Some(img)
    ensures forall img :: img in ImagesBelow(tags, n).processed <==>
      exists i :: 0 <= i < n && Marks(tags, i, img)
    ensures ImagesBelow(tags, n).processed <= ImagesBelow(tags, n).unique
  {
    if n > 0 {
      ImagesBelowMeaning(tags, n - 1);
      LastImageNamed(tags, n - 1);
      forall img | img in ImagesBelow(tags, n).processed
        ensures exists i :: 0 <= i < n && Marks(tags, i, img)
      {
        if img !in ImagesBelow(tags, n - 1).processed {
          assert Marks(tags, n - 1, img);
        }
      }
    }
  }

  /** The last image, when there is one, was named by an image line. */
  lemma {:induction false} LastImageNamed(tags: seq<ImageTag>, n: nat)
    requires n <= |tags|
    ensures LastImage(tags, n).Some? ==> exists i :: 0 <= i < n && tags[i].image == LastImage(tags, n)
  {
    if n > 0 && tags[n - 1].image.None? {
      LastImageNamed(tags, n - 1);
    }
  }

  /** `analyze_user_images_in_file` on a file's base name and lines. */
  method AnalyzeUserImages(fn: string, lines: seq<string>) returns (user: string, date: string, uniqueCount: nat, processedCount: nat)
    ensures user == ExtractUserId(fn) && date == ExtractDate(fn)
    ensures var st := ImagesBelow(Tags(lines), |lines|);
      uniqueCount == |st.unique| && processedCount == |st.processed|
    ensures processedCount <= uniqueCount
  {
    user := ExtractUserId(fn);
    date := ExtractDate(fn);
    var tags := Tags(lines);
    var unique, processed := ScanImages(tags);
    uniqueCount, processedCount := |unique|, |processed|;
  }

  /** The loop over the tagged lines: the sets of unique and of processed images. */
  method ScanImages(tags: seq<ImageTag>) returns (unique: set<string>, processed: set<string>)
    ensures unique == ImagesBelow(tags, |tags|).unique && processed == ImagesBelow(tags, |tags|).processed
    ensures |processed| <= |unique|
  {
    unique, processed := {}, {};
    var last: Option<string> := None;
    var i := 0;
    while i < |tags|
      invariant i <= |tags|
      invariant ImagesBelow(tags, i) == ImageSets(unique, processed, last)
    {
      var t := tags[i];
      if t.image.Some? {
        unique := unique + {t.image.value};
        last := t.image;
      } else if t.updated && last.Some? && last.value != [] {
        processed := processed + {last.value};
      }
      i := i + 1;
    }
    ImagesBelowMeaning(tags, |tags|);
    SubsetCard(processed, unique);
  }

  lemma SubsetCard(a: set<string>, b: set<string>)
    requires a <= b
    ensures |a| <= |b|
  {
    assert b == a + (b - a);
  }
}
