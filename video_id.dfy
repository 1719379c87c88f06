/**
  The video-ID check of the server: `re.match(r'^[a-zA-Z0-9_-]{11}$', id)`.

  The pattern is run the way Python's regular-expression engine runs it: the
  match is anchored at the start, the counted class consumes exactly eleven
  characters, and `$` (without MULTILINE) succeeds both at the very end of the
  string and just before a single newline that ends it.
*/
module VideoId {
  import opened Json

  /** Length of a YouTube video ID, the `{11}` of the pattern. */
  const IdLength: nat := 11

  /** The character class `[a-zA-Z0-9_-]`. */
  predicate IdChar(c: char) {
    ('a' <= c <= 'z') || ('A' <= c <= 'Z') || ('0' <= c <= '9') || c == '_' || c == '-'
  }

  /** Matches `n` repetitions of the class starting at position `i`; on success
      gives the position just after them. */
  function RepeatClass(s: string, i: nat, n: nat): (r: Option<nat>)
    requires i <= |s|
    ensures r.Some? <==> i + n <= |s| && forall k :: i <= k < i + n ==> IdChar(s[k])
    ensures r.Some? ==> r.value == i + n
    decreases n
  {
    if n == 0 then Some(i)
    else if i < |s| && IdChar(s[i]) then RepeatClass(s, i + 1, n - 1)
    else None
  }

  /** Python's `$` without MULTILINE: end of string, or before a final "\n". */
  predicate DollarAt(s: string, i: nat): (r: bool)
    ensures r <==> i <= |s| && (s[i..] == "" || s[i..] == "\n")
  {
    i == |s| || (i + 1 == |s| && s[i] == '\n')
  }

  /** `bool(re.match(r'^[a-zA-Z0-9_-]{11}$', s))`: eleven ID characters,
      optionally followed by exactly one newline. */
  function IsValidYoutubeId(s: string): (r: bool)
    ensures r <==>
      && (|s| == IdLength || (|s| == IdLength + 1 && s[IdLength] == '\n'))
      && forall k :: 0 <= k < IdLength ==> IdChar(s[k])
  {
    match RepeatClass(s, 0, IdLength)
    case Some(e) => DollarAt(s, e)
    case None => false
  }

  /** The `$` quirk: an accepted 11-character ID is still accepted with one
      trailing newline, but not with two, nor with any other trailing character. */
  lemma TrailingNewlineAccepted(s: string, c: char)
    requires |s| == IdLength && IsValidYoutubeId(s)
    ensures IsValidYoutubeId(s + "\n")
    ensures !IsValidYoutubeId(s + "\n\n")
    ensures c != '\n' ==> !IsValidYoutubeId(s + [c])
  {
    assert forall k :: 0 <= k < IdLength ==> (s + "\n")[k] == s[k];
    assert (s + "\n")[IdLength] == '\n';
    assert (s + [c])[IdLength] == c;
  }

  /** Concrete instances: a real ID, the same ID with a trailing newline, and
      rejected strings of the wrong length or alphabet. */
  lemma ValidIdExamples()
    ensures IsValidYoutubeId("dQw4w9WgXcQ")
    ensures IsValidYoutubeId("dQw4w9WgXcQ\n")
    ensures !IsValidYoutubeId("dQw4w9WgXc")
    ensures !IsValidYoutubeId("dQw4w9WgXc!")
    ensures !IsValidYoutubeId("")
  {
    assert !IdChar("dQw4w9WgXc!"[10]);
  }
}
