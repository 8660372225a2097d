/** How the workers name the blobs they write: the input blob is the last
    segment of the ad's ImageURL, and each output is that name without its
    extension followed by a stage-specific suffix. */
module Naming {

  /** The text after the last occurrence of c, or all of s when c does not occur. */
  function AfterLast(s: string, c: char): (r: string)
    ensures |r| <= |s|
    ensures c !in r
    decreases |s|
  {
    if s == [] then []
    else if s[|s| - 1] == c then []
    else AfterLast(s[..|s| - 1], c) + [s[|s| - 1]]
  }

  /** AfterLast keeps a suffix of s, and the longest one without c: it stops
      just after an occurrence of c, or at the start of s. */
  lemma {:induction false} AfterLastIsLongestSuffix(s: string, c: char)
    ensures var r := AfterLast(s, c); r == s[|s| - |r|..] && (|r| < |s| ==> s[|s| - |r| - 1] == c)
    decreases |s|
  {
    if s != [] && s[|s| - 1] != c {
      var p := s[..|s| - 1];
      AfterLastIsLongestSuffix(p, c);
      var q := AfterLast(p, c);
      assert AfterLast(s, c) == q + [s[|s| - 1]];
      assert s[|s| - |q| - 1..] == p[|p| - |q|..] + [s[|s| - 1]];
    }
  }

  /** The text before the last occurrence of c, or all of s when c does not occur. */
  function BeforeLast(s: string, c: char): (r: string)
    ensures |r| <= |s| && r == s[..|r|]
    ensures c in s ==> |r| < |s| && s[|r|] == c && c !in s[|r| + 1..]
    ensures c !in s ==> r == s
    decreases |s|
  {
    if c !in s then s
    else if s[|s| - 1] == c then s[..|s| - 1]
    else
      assert c in s[..|s| - 1] by {
        var i :| 0 <= i < |s| && s[i] == c;
        assert s[..|s| - 1][i] == c;
      }
      var r := BeforeLast(s[..|s| - 1], c);
      assert s[|r| + 1..] == s[..|s| - 1][|r| + 1..] + [s[|s| - 1]];
      r
  }

  /** blobUri.Segments[blobUri.Segments.Length - 1]: the blob name the image URL ends in. */
  function BlobName(imageURL: string): string
  {
    AfterLast(imageURL, '/')
  }

  /** Path.GetFileNameWithoutExtension of a name that holds no '/'. */
  function FileNameWithoutExtension(name: string): string
  {
    BeforeLast(name, '.')
  }

  const ThumbnailSuffix := "thumb.jpg"
  const WrittenImageSuffix := "written.jpg"

  /** The blob the thumbnail stage writes for an ad with this image URL. */
  function ThumbnailName(imageURL: string): string
  {
    FileNameWithoutExtension(BlobName(imageURL)) + ThumbnailSuffix
  }

  /** The blob the written-image stages write for an ad with this image URL. */
  function WrittenImageName(imageURL: string): string
  {
    FileNameWithoutExtension(BlobName(imageURL)) + WrittenImageSuffix
  }

  /** Both output names are the input blob's name up to its last '.', then the
      stage's suffix; they hold no '/', so each is a blob directly in the container. */
  lemma OutputNameShape(imageURL: string)
    ensures var stem := FileNameWithoutExtension(BlobName(imageURL));
            && stem == BlobName(imageURL)[..|stem|] && '/' !in stem
            && ThumbnailName(imageURL) == stem + ThumbnailSuffix && '/' !in ThumbnailName(imageURL)
            && WrittenImageName(imageURL) == stem + WrittenImageSuffix && '/' !in WrittenImageName(imageURL)
  {
    var name := BlobName(imageURL);
    var stem := FileNameWithoutExtension(name);
    NoSlashInPrefix(name, |stem|);
    NoSlashInConcat(stem, ThumbnailSuffix);
    NoSlashInConcat(stem, WrittenImageSuffix);
  }

  lemma NoSlashInPrefix(s: string, n: nat)
    requires n <= |s| && '/' !in s
    ensures '/' !in s[..n]
  {
    forall i | 0 <= i < n ensures s[..n][i] != '/' {
      assert s[..n][i] == s[i];
    }
  }

  lemma NoSlashInConcat(a: string, b: string)
    requires '/' !in a && '/' !in b
    ensures '/' !in a + b
  {
    forall i | 0 <= i < |a + b| ensures (a + b)[i] != '/' {
      if i < |a| { assert (a + b)[i] == a[i]; } else { assert (a + b)[i] == b[i - |a|]; }
    }
  }

  /** outputBlob.Uri: the blob's name under the container's address; never empty,
      so a slot set to it reads as filled. */
  function BlobUri(containerUri: string, name: string): (uri: string)
    ensures |uri| == |containerUri| + 1 + |name| && uri[..|containerUri|] == containerUri
    ensures uri[|containerUri|] == '/'
    ensures uri[|containerUri| + 1..] == name
  {
    containerUri + "/" + name
  }

  /** A thumbnail name is never a written-image name, whatever the two ads' image
      URLs are: "thumb.jpg" and "written.jpg" differ in their fifth-last character. */
  lemma OutputNamesDiffer(u: string, v: string)
    ensures ThumbnailName(u) != WrittenImageName(v)
  {
    StemsWithSuffixesDiffer(FileNameWithoutExtension(BlobName(u)), FileNameWithoutExtension(BlobName(v)));
  }

  lemma StemsWithSuffixesDiffer(a: string, b: string)
    ensures a + ThumbnailSuffix != b + WrittenImageSuffix
  {
    var t, w := a + ThumbnailSuffix, b + WrittenImageSuffix;
    assert t[|t| - 5] == ThumbnailSuffix[4] == 'b';
    assert w[|w| - 5] == WrittenImageSuffix[6] == 'n';
  }

  /** Neither stage writes over the image it reads. */
  lemma OutputIsNotInput(u: string)
    ensures ThumbnailName(u) != BlobName(u)
    ensures WrittenImageName(u) != BlobName(u)
  {
    var name := BlobName(u);
    var stem := FileNameWithoutExtension(name);
    StemNotFollowedBy(name, ThumbnailSuffix);
    StemNotFollowedBy(name, WrittenImageSuffix);
  }

  /** Appending a suffix that does not start with '.' to a name's stem never gives the name back. */
  lemma StemNotFollowedBy(name: string, suffix: string)
    requires suffix != [] && suffix[0] != '.'
    ensures FileNameWithoutExtension(name) + suffix != name
  {
    var stem := FileNameWithoutExtension(name);
    var out := stem + suffix;
    if '.' in name {
      assert out[|stem|] == suffix[0];
      assert |out| <= |name| ==> name[|stem|] == '.';
    } else {
      assert |out| > |name|;
    }
  }
}
