/** CutUserKeyFormatter: the log formatter that hides part of the user's API key in a
    log line. The model starts from the line the standard formatter already produced. */
module KeyMask {
  import opened Common
  import opened Text

  const ApiKey: string := "api_key"

  /** Constants.THREE_DOTS, the text that replaces the hidden part of the key. */
  const ThreeDots: string := "..."

  /** The key text is taken from 13 to 28 characters after the start of "api_key",
      i.e. from the sixth character after "api_key=" on, 15 characters long. */
  const WindowStart: nat := 13
  const WindowEnd: nat := 28

  /** The 15 characters that are hidden when the last "api_key" starts at `k`. */
  function Window(entry: string, k: nat): (w: string)
    requires k + WindowEnd <= |entry|
    ensures |w| == WindowEnd - WindowStart
  {
    entry[k + WindowStart..k + WindowEnd]
  }

  /** `format`: find the last "api_key"; when it starts after index 0, replace every
      occurrence of the 15 characters of its window by THREE_DOTS. `substring` throws
      when the line ends before the window does. */
  function Format(entry: string): (r: Result<string>)
    ensures r.Err? ==> r.fault == IndexOutOfBounds
    ensures r.Err? <==> exists k | 0 < k <= |entry| ::
              OccursAt(entry, ApiKey, k) && |entry| < k + WindowEnd
                && forall j :: k < j ==> !OccursAt(entry, ApiKey, j)
  {
    var k := LastIndexOf(entry, ApiKey);
    if k > 0 then
      if k + WindowEnd <= |entry| then Ok(ReplaceAll(entry, Window(entry, k), ThreeDots))
      else Err(IndexOutOfBounds)
    else Ok(entry)
  }

  /** A line that never mentions "api_key" is passed through unchanged. */
  lemma FormatWithoutKey(entry: string)
    requires !Contains(entry, ApiKey)
    ensures Format(entry) == Ok(entry)
  {
  }

  /** The test is `> 0`: a line whose only "api_key" starts at index 0 is not masked. */
  lemma FormatKeyOnlyAtStart(entry: string)
    requires OccursAt(entry, ApiKey, 0)
    requires forall j :: 0 < j ==> !OccursAt(entry, ApiKey, j)
    ensures Format(entry) == Ok(entry)
  {
  }

  /** With the last "api_key" at `k`, a window that occurs once is replaced in place:
      the line keeps everything up to the fifth key character and everything after the
      window, and the 15 characters in between become THREE_DOTS. */
  lemma FormatMasksWindow(entry: string, k: nat)
    requires 0 < k && OccursAt(entry, ApiKey, k) && forall j :: k < j ==> !OccursAt(entry, ApiKey, j)
    requires k + WindowEnd <= |entry|
    requires forall j :: 0 <= j && j != k + WindowStart ==> !OccursAt(entry, Window(entry, k), j)
    ensures Format(entry) == Ok(entry[..k + WindowStart] + ThreeDots + entry[k + WindowEnd..])
  {
    assert LastIndexOf(entry, ApiKey) == k;
    var w := Window(entry, k);
    assert OccursAt(entry, w, k + WindowStart);
    ReplaceAllSingle(entry, w, ThreeDots, k + WindowStart);
  }

  /** Unless the key text also occurs earlier in the line, "api_key", the separator and
      the first five key characters stay visible. */
  lemma FormatKeepsKeyPrefix(entry: string, k: nat)
    requires 0 < k && OccursAt(entry, ApiKey, k) && forall j :: k < j ==> !OccursAt(entry, ApiKey, j)
    requires k + WindowEnd <= |entry|
    requires forall j :: 0 <= j < k + WindowStart ==> !OccursAt(entry, Window(entry, k), j)
    ensures Format(entry).Ok?
    ensures entry[..k + WindowStart] <= Format(entry).value
  {
    assert LastIndexOf(entry, ApiKey) == k;
    var w := Window(entry, k);
    ReplaceAllSkip(entry, w, ThreeDots, k + WindowStart);
  }

  /** Every copy of the key text that the left-to-right scan meets is masked, wherever it
      stands in the line: the first copy is replaced by THREE_DOTS, then the first copy
      after it, and so on, and the text between them is kept. */
  lemma FormatMasksEveryCopy(entry: string, k: nat)
    requires 0 < k && OccursAt(entry, ApiKey, k) && forall i :: k < i ==> !OccursAt(entry, ApiKey, i)
    requires k + WindowEnd <= |entry|
    ensures Format(entry) == Ok(ReplaceEach(entry, Window(entry, k), ThreeDots))
    ensures Format(entry).Ok? && |Format(entry).value| < |entry|
  {
    assert LastIndexOf(entry, ApiKey) == k;
    var w := Window(entry, k);
    ReplaceAllIsReplaceEach(entry, w, ThreeDots);
    assert OccursAt(entry, w, k + WindowStart);
    ReplaceEachShorter(entry, w, ThreeDots);
  }

  /** The replacement is not confined to the key: the first copy of the key text,
      wherever it stands in the line, is replaced as well. */
  lemma FormatMasksEarlierCopy(entry: string, k: nat, j: nat)
    requires 0 < k && OccursAt(entry, ApiKey, k) && forall i :: k < i ==> !OccursAt(entry, ApiKey, i)
    requires k + WindowEnd <= |entry|
    requires OccursAt(entry, Window(entry, k), j)
    requires forall i :: 0 <= i < j ==> !OccursAt(entry, Window(entry, k), i)
    ensures Format(entry).Ok?
    ensures entry[..j] + ThreeDots <= Format(entry).value
  {
    assert LastIndexOf(entry, ApiKey) == k;
    var w := Window(entry, k);
    ReplaceAllSkip(entry, w, ThreeDots, j);
    assert entry[j..][..|w|] == w;
  }
}
