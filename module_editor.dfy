/**
 * The module editor (src/pages/ModuleEditor.tsx): the tag list and its input
 * field as component state, the video-URL classifier behind the preview, and
 * the validation and normalisation of `handleSave`.
 */
module ModuleEditor {
  import opened Wrappers
  import opened JsText
  import opened JsArray

  // ---------------------------------------------------------------------
  // Tags
  // ---------------------------------------------------------------------

  /** `addTag` adds the trimmed input when it is not blank and not yet a tag. */
  predicate CanAdd(tags: seq<string>, input: string) {
    Trim(input) != "" && Trim(input) !in tags
  }

  /** The tag list after `addTag`. */
  function TagsAfterAdd(tags: seq<string>, input: string): seq<string> {
    if CanAdd(tags, input) then tags + [Trim(input)] else tags
  }

  /** The tag list after `removeTag(t)`. */
  function TagsAfterRemove(tags: seq<string>, t: string): seq<string> {
    Filter(tags, (x: string) => x != t)
  }

  /** Every tag is non-blank and carries no surrounding whitespace. */
  predicate CleanTags(tags: seq<string>) {
    forall i :: 0 <= i < |tags| ==> tags[i] != "" && Trim(tags[i]) == tags[i]
  }

  /** The editor's form state. */
  class ModuleForm {
    var name: string
    var description: string
    var videoUrl: string
    var tags: seq<string>
    var tagInput: string

    /** A new module starts with every field empty. */
    constructor ()
      ensures name == "" && description == "" && videoUrl == "" && tags == [] && tagInput == ""
    {
      name, description, videoUrl, tags, tagInput := "", "", "", [], "";
    }

    /** `addTag`: appends the trimmed input and clears the field, or changes nothing. */
    method AddTag()
      modifies this
      ensures tags == TagsAfterAdd(old(tags), old(tagInput))
      ensures tagInput == if CanAdd(old(tags), old(tagInput)) then "" else old(tagInput)
      ensures name == old(name) && description == old(description) && videoUrl == old(videoUrl)
    {
      var t := Trim(tagInput);
      if t != "" && t !in tags {
        tags := tags + [t];
        tagInput := "";
      }
    }

    /** `removeTag`: drops every occurrence of `t`. */
    method RemoveTag(t: string)
      modifies this
      ensures tags == TagsAfterRemove(old(tags), t)
      ensures tagInput == old(tagInput)
      ensures name == old(name) && description == old(description) && videoUrl == old(videoUrl)
    {
      tags := Filter(tags, (x: string) => x != t);
    }
  }

  /** Adding appends exactly the trimmed input when it is new and not blank,
      and keeps a list without repeats and with clean tags so. */
  lemma AddTagSpec(tags: seq<string>, input: string)
    ensures forall x :: x in TagsAfterAdd(tags, input) <==> x in tags || (CanAdd(tags, input) && x == Trim(input))
    ensures Distinct(tags) ==> Distinct(TagsAfterAdd(tags, input))
    ensures CleanTags(tags) ==> CleanTags(TagsAfterAdd(tags, input))
    ensures |TagsAfterAdd(tags, input)| == |tags| + (if CanAdd(tags, input) then 1 else 0)
  {
    if CanAdd(tags, input) {
      var t := Trim(input);
      var r := tags + [t];
      if Distinct(tags) {
        forall i, j | 0 <= i < j < |r| ensures r[i] != r[j] {
          if j == |tags| { assert r[i] == tags[i]; }
        }
      }
      if CleanTags(tags) {
        TrimOfTrimmed(t);
        forall i | 0 <= i < |r| ensures r[i] != "" && Trim(r[i]) == r[i] {
          if i < |tags| { assert r[i] == tags[i]; }
        }
      }
    }
  }

  /** Removing drops every occurrence of the tag and keeps the others in
      order, and keeps a list without repeats and with clean tags so. */
  lemma RemoveTagSpec(tags: seq<string>, t: string)
    ensures forall x :: x in TagsAfterRemove(tags, t) <==> x in tags && x != t
    ensures t !in tags ==> TagsAfterRemove(tags, t) == tags
    ensures Distinct(tags) ==> Distinct(TagsAfterRemove(tags, t))
    ensures CleanTags(tags) ==> CleanTags(TagsAfterRemove(tags, t))
  {
    var keep := (x: string) => x != t;
    FilterMembers(tags, keep);
    if t !in tags {
      FilterAll(tags, keep);
    }
    if Distinct(tags) {
      FilterDistinct(tags, keep);
    }
    if CleanTags(tags) {
      var r := TagsAfterRemove(tags, t);
      forall i | 0 <= i < |r| ensures r[i] != "" && Trim(r[i]) == r[i] {
        assert r[i] in tags;
      }
    }
  }

  /** Removing a tag just added gives the old list back. */
  lemma RemoveUndoesAdd(tags: seq<string>, input: string)
    requires CanAdd(tags, input)
    ensures TagsAfterRemove(TagsAfterAdd(tags, input), Trim(input)) == tags
  {
    var t := Trim(input);
    var keep := (x: string) => x != t;
    FilterAppend(tags, [t], keep);
    FilterAll(tags, keep);
    assert Filter([t], keep) == [];
  }

  // ---------------------------------------------------------------------
  // Video URLs
  // ---------------------------------------------------------------------

  const YouTubeWatch := "youtube.com/watch?v="
  const YouTuBe := "youtu.be/"
  const VimeoHost := "vimeo.com/"
  const YouTubeEmbed := "https://www.youtube.com/embed/"
  const VimeoPlayer := "https://player.vimeo.com/video/"

  /** `[^&\s]`: a character of a YouTube video id. */
  predicate IdChar(c: char) {
    c != '&' && !IsSpace(c)
  }

  /** `\d`. */
  predicate Digit(c: char) {
    '0' <= c <= '9'
  }

  /** `w` occurs in `s` at position `i`. */
  predicate StartsAt(s: string, i: nat, w: string) {
    i <= |s| && w <= s[i..]
  }

  /** The length of the longest run of `ok` characters at position `i`: what a
      greedy `+` consumes. */
  function Run(s: string, i: nat, ok: char -> bool): (n: nat)
    requires i <= |s|
    ensures i + n <= |s|
    ensures forall k :: i <= k < i + n ==> ok(s[k])
    ensures i + n == |s| || !ok(s[i + n])
    decreases |s| - i
  {
    if i < |s| && ok(s[i]) then 1 + Run(s, i + 1, ok) else 0
  }

  /** The position where the id follows a YouTube prefix found at `i`, if the
      id is not empty. The two prefixes differ at their sixth character, so
      at most one of them occurs at `i`. */
  function YouTubeIdStart(s: string, i: nat): Option<nat> {
    if StartsAt(s, i, YouTubeWatch) && Run(s, i + |YouTubeWatch|, IdChar) > 0 then Some(i + |YouTubeWatch|)
    else if StartsAt(s, i, YouTuBe) && Run(s, i + |YouTuBe|, IdChar) > 0 then Some(i + |YouTuBe|)
    else None
  }

  /** The two YouTube prefixes never occur at the same position, so trying
      them in order is the regex's alternation. */
  lemma PrefixesExclusive(s: string, i: nat)
    ensures !(StartsAt(s, i, YouTubeWatch) && StartsAt(s, i, YouTuBe))
  {
    if StartsAt(s, i, YouTubeWatch) {
      assert s[i..][5] == YouTubeWatch[5] == 'b' != YouTuBe[5];
    }
  }

  /** `/(?:youtube\.com\/watch\?v=|youtu\.be\/)([^&\s]+)/` matches at `i`. */
  predicate YouTubeAt(s: string, i: nat) {
    YouTubeIdStart(s, i).Some?
  }

  /** `/vimeo\.com\/(\d+)/` matches at `i`. */
  predicate VimeoAt(s: string, i: nat) {
    StartsAt(s, i, VimeoHost) && Run(s, i + |VimeoHost|, Digit) > 0
  }

  /** The two link patterns `getVideoEmbedUrl` searches for. */
  datatype Pattern = YouTube | Vimeo

  predicate MatchAt(p: Pattern, s: string, i: nat) {
    if p == YouTube then YouTubeAt(s, i) else VimeoAt(s, i)
  }

  /** Where `p` matches in `s`, position by position. */
  function Hits(p: Pattern, s: string): (h: seq<bool>)
    ensures |h| == |s| && forall j :: 0 <= j < |s| ==> h[j] == MatchAt(p, s, j)
  {
    seq(|s|, j requires 0 <= j < |s| => MatchAt(p, s, j))
  }

  /** The first hit at or after `i`: where a regex search from `i` reports
      its match. */
  function FirstHit(h: seq<bool>, i: nat): (r: Option<nat>)
    requires i <= |h|
    ensures r.Some? ==> i <= r.value < |h| && h[r.value] && forall j :: i <= j < r.value ==> !h[j]
    ensures r.None? ==> forall j :: i <= j < |h| ==> !h[j]
    decreases |h| - i
  {
    if i == |h| then None else if h[i] then Some(i) else FirstHit(h, i + 1)
  }

  /** The leftmost match of `p` in `s`. */
  function Leftmost(p: Pattern, s: string): Option<nat> {
    FirstHit(Hits(p, s), 0)
  }

  /** The captured group of a YouTube match at `i`. */
  function YouTubeId(s: string, i: nat): (id: string)
    requires YouTubeAt(s, i)
  {
    var k := YouTubeIdStart(s, i).value;
    s[k..k + Run(s, k, IdChar)]
  }

  /** The captured group of a Vimeo match at `i`. */
  function VimeoId(s: string, i: nat): (id: string)
    requires VimeoAt(s, i)
  {
    var k := i + |VimeoHost|;
    s[k..k + Run(s, k, Digit)]
  }

  /** `/\.(mp4|webm|ogg)$/i`. */
  predicate DirectVideo(url: string) {
    var l := ToLower(url);
    EndsWith(l, ".mp4") || EndsWith(l, ".webm") || EndsWith(l, ".ogg")
  }

  /** `getVideoEmbedUrl`. */
  function EmbedUrl(url: string): Option<string> {
    if url == "" then None
    else
      var y := Leftmost(YouTube, url);
      if y.Some? then Some(YouTubeEmbed + YouTubeId(url, y.value))
      else
        var v := Leftmost(Vimeo, url);
        if v.Some? then Some(VimeoPlayer + VimeoId(url, v.value))
        else if DirectVideo(url) then Some(url)
        else None
  }

  /** The id of a YouTube match is a non-empty run that stops at `&`,
      whitespace or the end, and it follows the prefix in the URL. */
  lemma YouTubeIdShape(s: string, i: nat)
    requires YouTubeAt(s, i)
    ensures var id := YouTubeId(s, i);
      id != [] && (forall k :: 0 <= k < |id| ==> IdChar(id[k]))
      && ((StartsAt(s, i, YouTubeWatch) && StartsAt(s, i + |YouTubeWatch|, id))
          || (StartsAt(s, i, YouTuBe) && StartsAt(s, i + |YouTuBe|, id)))
  {
    var k := YouTubeIdStart(s, i).value;
    var id := YouTubeId(s, i);
    forall m | 0 <= m < |id| ensures IdChar(id[m]) {
      assert id[m] == s[k + m];
    }
    assert id <= s[k..];
  }

  /** The id of a Vimeo match is a non-empty run of digits. */
  lemma VimeoIdShape(s: string, i: nat)
    requires VimeoAt(s, i)
    ensures var id := VimeoId(s, i);
      id != [] && (forall k :: 0 <= k < |id| ==> Digit(id[k])) && StartsAt(s, i + |VimeoHost|, id)
  {
    var k := i + |VimeoHost|;
    var id := VimeoId(s, i);
    forall m | 0 <= m < |id| ensures Digit(id[m]) {
      assert id[m] == s[k + m];
    }
    assert id <= s[k..];
  }

  /** A hit with none before it is the one reported. */
  lemma {:induction false} FirstHitFinds(h: seq<bool>, i: nat, j: nat)
    requires i <= j < |h| && h[j]
    requires forall k :: i <= k < j ==> !h[k]
    ensures FirstHit(h, i) == Some(j)
    decreases j - i
  {
    if i < j {
      FirstHitFinds(h, i + 1, j);
    }
  }

  /** Without a hit none is reported. */
  lemma {:induction false} FirstHitMisses(h: seq<bool>, i: nat)
    requires i <= |h|
    requires forall k :: i <= k < |h| ==> !h[k]
    ensures FirstHit(h, i) == None
    decreases |h| - i
  {
    if i < |h| {
      FirstHitMisses(h, i + 1);
    }
  }

  /** The leftmost YouTube link decides the result, whatever else the URL
      holds: its id is embedded. */
  lemma EmbedUrlYouTube(url: string, j: nat)
    requires j < |url| && YouTubeAt(url, j)
    requires forall k :: 0 <= k < j ==> !YouTubeAt(url, k)
    ensures EmbedUrl(url) == Some(YouTubeEmbed + YouTubeId(url, j))
  {
    FirstHitFinds(Hits(YouTube, url), 0, j);
  }

  /** With no YouTube link, the leftmost Vimeo link gives the player URL. */
  lemma EmbedUrlVimeo(url: string, j: nat)
    requires forall k :: 0 <= k < |url| ==> !YouTubeAt(url, k)
    requires j < |url| && VimeoAt(url, j)
    requires forall k :: 0 <= k < j ==> !VimeoAt(url, k)
    ensures EmbedUrl(url) == Some(VimeoPlayer + VimeoId(url, j))
  {
    FirstHitMisses(Hits(YouTube, url), 0);
    FirstHitFinds(Hits(Vimeo, url), 0, j);
  }

  /** With neither kind of link, a video file is kept as it is and anything
      else, the empty URL included, yields nothing. */
  lemma EmbedUrlOther(url: string)
    requires forall k :: 0 <= k < |url| ==> !YouTubeAt(url, k) && !VimeoAt(url, k)
    ensures EmbedUrl(url) == if url != "" && DirectVideo(url) then Some(url) else None
  {
    FirstHitMisses(Hits(YouTube, url), 0);
    FirstHitMisses(Hits(Vimeo, url), 0);
  }

  /** The file-type test ignores the case of the extension. */
  lemma DirectVideoIgnoresCase(url: string)
    ensures DirectVideo(ToUpper(url)) == DirectVideo(url)
  {
    assert ToLower(ToUpper(url)) == ToLower(url);
  }

  // ---------------------------------------------------------------------
  // Saving
  // ---------------------------------------------------------------------

  /** The row `handleSave` writes. */
  datatype ModuleData = ModuleData(name: string, description: string, videoUrl: Option<string>, tags: Option<seq<string>>, createdBy: string)

  /** What `handleSave` does: an error message, or an insert for a new module
      or an update of the module being edited. */
  datatype SaveOutcome = Rejected(message: string) | Insert(data: ModuleData) | Update(id: string, data: ModuleData)

  /** `handleSave`; `editing` is the route's `id` and `user` the signed-in user's id. */
  function HandleSave(name: string, description: string, videoUrl: string, tags: seq<string>, user: Option<string>, editing: Option<string>): SaveOutcome {
    if Trim(name) == "" then Rejected("Please enter a module name")
    else if Trim(description) == "" then Rejected("Please enter consent text")
    else if user.None? then Rejected("You must be logged in")
    else
      var data := ModuleData(Trim(name), Trim(description), if Trim(videoUrl) == "" then None else Some(Trim(videoUrl)), if |tags| > 0 then Some(tags) else None, user.value);
      if Truthy(editing) then Update(editing.value, data) else Insert(data)
  }

  /** The checks run in order (name, consent text, sign-in), and a save that
      passes them all writes; whitespace-only fields count as blank. */
  lemma SaveChecks(name: string, description: string, videoUrl: string, tags: seq<string>, user: Option<string>, editing: Option<string>)
    ensures var r := HandleSave(name, description, videoUrl, tags, user, editing);
      (AllSpace(name) ==> r == Rejected("Please enter a module name"))
      && (!AllSpace(name) && AllSpace(description) ==> r == Rejected("Please enter consent text"))
      && (!AllSpace(name) && !AllSpace(description) && user.None? ==> r == Rejected("You must be logged in"))
      && (r.Rejected? <==> AllSpace(name) || AllSpace(description) || user.None?)
      && (r.Update? <==> !r.Rejected? && Truthy(editing))
  {
    TrimEmptyIffAllSpace(name);
    TrimEmptyIffAllSpace(description);
  }

  /** A written row has a non-blank name and text without surrounding
      whitespace, a video URL only when one was entered, and tags only when
      there are some; the tags are stored as they are. */
  lemma SaveNormalises(name: string, description: string, videoUrl: string, tags: seq<string>, user: Option<string>, editing: Option<string>)
    requires !HandleSave(name, description, videoUrl, tags, user, editing).Rejected?
    ensures var d := HandleSave(name, description, videoUrl, tags, user, editing).data;
      d.name != "" && Trim(d.name) == d.name
      && d.description != "" && Trim(d.description) == d.description
      && (d.videoUrl.None? <==> AllSpace(videoUrl))
      && (d.videoUrl.Some? ==> d.videoUrl.value != "" && Trim(d.videoUrl.value) == d.videoUrl.value)
      && (d.tags.None? <==> tags == [])
      && (d.tags.Some? ==> d.tags.value == tags)
      && d.createdBy == user.value
  {
    TrimOfTrimmed(Trim(name));
    TrimOfTrimmed(Trim(description));
    TrimOfTrimmed(Trim(videoUrl));
    TrimEmptyIffAllSpace(videoUrl);
  }
}
