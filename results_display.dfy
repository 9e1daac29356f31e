/** The results screen (components/ResultsDisplay.tsx): a cursor over the
    original image followed by the generated ones, with wrap-around previous
    and next, direct selection from the thumbnails, and the download link. */
module ResultsDisplay {
  import opened Types
  import opened Modular

  /** `prev === 0 ? allImages.length - 1 : prev - 1`. */
  function Prev(i: nat, len: nat): (j: nat)
    requires i < len
    ensures j < len
    ensures j == (i + len - 1) % len
  {
    if i == 0 then
      ModUnique(len - 1, len, 0, len - 1);
      len - 1
    else
      ModUnique(i + len - 1, len, 1, i - 1);
      i - 1
  }

  /** `prev === allImages.length - 1 ? 0 : prev + 1`. */
  function Next(i: nat, len: nat): (j: nat)
    requires i < len
    ensures j < len
    ensures j == (i + 1) % len
  {
    if i == len - 1 then
      ModUnique(len, len, 1, 0);
      0
    else
      ModUnique(i + 1, len, 0, i + 1);
      i + 1
  }

  /** Previous and next undo each other. */
  lemma PrevNextInverse(i: nat, len: nat)
    requires i < len
    ensures Next(Prev(i, len), len) == i
    ensures Prev(Next(i, len), len) == i
  {
  }

  /** The cursor after pressing next `k` times from `i`. */
  function NextTimes(i: nat, len: nat, k: nat): (j: nat)
    requires i < len
    ensures j < len
  {
    if k == 0 then i else Next(NextTimes(i, len, k - 1), len)
  }

  /** Pressing next `k` times advances the cursor by `k` modulo the length. */
  lemma {:induction false} NextTimesModulo(i: nat, len: nat, k: nat)
    requires i < len
    ensures NextTimes(i, len, k) == (i + k) % len
  {
    if k > 0 {
      NextTimesModulo(i, len, k - 1);
      ModSucc(i + k - 1, len);
    }
  }

  /** A full round of next presses comes back to where it started. */
  lemma FullRoundReturns(i: nat, len: nat)
    requires i < len
    ensures NextTimes(i, len, len) == i
  {
    NextTimesModulo(i, len, len);
    ModUnique(i + len, len, 1, i);
  }

  /** Previous and next move the cursor exactly when there is more than one
      image, which is exactly when their controls are shown. */
  lemma NavigationMovesIffSeveral(i: nat, len: nat)
    requires i < len
    ensures Next(i, len) != i <==> len > 1
    ensures Prev(i, len) != i <==> len > 1
  {
  }

  /** The keys that activate a focused thumbnail. */
  predicate ActivatesThumbnail(key: string) {
    key == "Enter" || key == " "
  }

  function DigitChar(d: nat): (c: char)
    requires d < 10
    ensures '0' <= c <= '9'
  {
    (('0' as int) + d) as char
  }

  /** `${n}` for a non-negative integer: its decimal digits, most significant
      first, without leading zeros. */
  function Decimal(n: nat): (s: string)
    ensures |s| >= 1
    ensures forall k :: 0 <= k < |s| ==> '0' <= s[k] <= '9'
    ensures n > 0 ==> s[0] != '0'
  {
    if n < 10 then [DigitChar(n)] else Decimal(n / 10) + [DigitChar(n % 10)]
  }

  /** The number a string of decimal digits spells. */
  function DecimalValue(s: string): nat
    requires forall k :: 0 <= k < |s| ==> '0' <= s[k] <= '9'
  {
    if s == [] then 0 else DecimalValue(s[..|s| - 1]) * 10 + (s[|s| - 1] as int - '0' as int)
  }

  /** Reading back the digits of `n` gives `n`. */
  lemma {:induction false} DecimalRoundTrip(n: nat)
    ensures DecimalValue(Decimal(n)) == n
  {
    if n >= 10 {
      var s := Decimal(n);
      assert s[..|s| - 1] == Decimal(n / 10);
      DecimalRoundTrip(n / 10);
    }
  }

  const OriginalFileName: string := "original_image.png"
  const GeneratedPrefix: string := "generated_image_"
  const FileExtension: string := ".png"

  /** The name `handleDownload` gives the image at index `i`: the original's
      own name at index 0 and only there, and a `.png` name in every case. */
  function DownloadName(i: nat): (name: string)
    ensures name == OriginalFileName <==> i == 0
    ensures |FileExtension| <= |name| && name[|name| - |FileExtension|..] == FileExtension
  {
    if i == 0 then OriginalFileName
    else
      var name := GeneratedPrefix + Decimal(i) + FileExtension;
      assert name[0] == 'g' && OriginalFileName[0] == 'o';
      name
  }

  /** Different images are downloaded under different names: the original
      under its own name, every variant under its number. */
  lemma DownloadNameInjective(i: nat, j: nat)
    ensures DownloadName(i) == DownloadName(j) ==> i == j
  {
    if i != 0 && j != 0 {
      if DownloadName(i) == DownloadName(j) {
        var s := DownloadName(i);
        var p, e := |GeneratedPrefix|, |FileExtension|;
        assert Decimal(i) == s[p..|s| - e];
        assert Decimal(j) == s[p..|s| - e];
        DecimalRoundTrip(i);
        DecimalRoundTrip(j);
      }
    }
  }

  /** The viewer: the list it shows and the selected position in it. */
  class Viewer {
    const allImages: seq<string>
    var selectedIndex: nat

    ghost predicate Valid()
      reads this
    {
      selectedIndex < |allImages|
    }

    /** The original comes first, then the generated images in their order;
        the first generated image is selected when there is one. */
    constructor (originalImage: UploadedImage, generatedImages: seq<string>)
      ensures allImages == [originalImage.dataUrl] + generatedImages
      ensures selectedIndex == if |generatedImages| > 0 then 1 else 0
      ensures Valid()
    {
      allImages := [originalImage.dataUrl] + generatedImages;
      selectedIndex := if |generatedImages| > 0 then 1 else 0;
    }

    method HandlePrev()
      requires Valid()
      modifies this
      ensures selectedIndex == Prev(old(selectedIndex), |allImages|)
      ensures Valid()
    {
      selectedIndex := if selectedIndex == 0 then |allImages| - 1 else selectedIndex - 1;
    }

    method HandleNext()
      requires Valid()
      modifies this
      ensures selectedIndex == Next(old(selectedIndex), |allImages|)
      ensures Valid()
    {
      selectedIndex := if selectedIndex == |allImages| - 1 then 0 else selectedIndex + 1;
    }

    /** A click on the thumbnail at `index`. */
    method SelectThumbnail(index: nat)
      requires index < |allImages|
      modifies this
      ensures selectedIndex == index
      ensures Valid()
    {
      selectedIndex := index;
    }

    /** A key press on the thumbnail at `index`. */
    method ThumbnailKeyDown(index: nat, key: string)
      requires Valid() && index < |allImages|
      modifies this
      ensures ActivatesThumbnail(key) ==> selectedIndex == index
      ensures !ActivatesThumbnail(key) ==> selectedIndex == old(selectedIndex)
      ensures Valid()
    {
      if ActivatesThumbnail(key) {
        selectedIndex := index;
      }
    }

    /** The previous and next buttons are rendered: exactly when pressing
        them would move the cursor. */
    function ShowsNavigation(): (shown: bool)
      requires Valid()
      reads this
      ensures shown <==> Next(selectedIndex, |allImages|) != selectedIndex
      ensures shown <==> Prev(selectedIndex, |allImages|) != selectedIndex
    {
      NavigationMovesIffSeveral(selectedIndex, |allImages|);
      |allImages| > 1
    }

    /** The link `handleDownload` clicks: the selected image, under the name
        of its position. */
    method HandleDownload() returns (href: string, fileName: string)
      requires Valid()
      ensures href == allImages[selectedIndex]
      ensures selectedIndex == 0 ==> fileName == OriginalFileName
      ensures selectedIndex > 0 ==> fileName == GeneratedPrefix + Decimal(selectedIndex) + FileExtension
    {
      href := allImages[selectedIndex];
      fileName := DownloadName(selectedIndex);
    }
  }
}
