/** The second landing page: a form that looks anywhere in the input, ignoring letter case, for a
    YouTube link with an eleven-character video id, and hands the URL, as typed, to the clip
    page. */
module LandingPageV2 {
  import opened JsText

  const EmptyUrlMessage := "Please enter a YouTube URL"
  const InvalidUrlMessage := "Please enter a valid YouTube URL"
  const GetClipsPath := "/get-clips"

  /** The length of the video id, `{11}`. */
  const IdLength := 11

  // ---------------------------------------------------------------------------------------
  // Characters under the `i` flag

  /** The case folding of the `i` flag on the characters that matter here: ASCII letters fold
      to lower case, everything else stays. (Every literal of the pattern is ASCII and its
      excluded classes hold no letters, so folding other letters changes no outcome.) */
  function Fold(c: char): char {
    if 'A' <= c <= 'Z' then (c as int + 32) as char else c
  }

  /** The whole string folded. */
  function FoldAll(s: string): (r: string)
    ensures |r| == |s| && forall i :: 0 <= i < |s| ==> r[i] == Fold(s[i])
  {
    seq(|s|, i requires 0 <= i < |s| => Fold(s[i]))
  }

  /** `[^"&?\/\s]`. */
  predicate IsIdChar(c: char) {
    c != '"' && c != '&' && c != '?' && c != '/' && !IsSpace(c)
  }

  /** The lower-case literal `lit` at position `p`, letters matched in either case. */
  predicate LitAt(s: string, p: nat, lit: string) {
    p + |lit| <= |s| && forall i :: 0 <= i < |lit| ==> Fold(s[p + i]) == lit[i]
  }

  /** `([^"&?\/\s]{11})` at position `p`. */
  predicate IdAt(s: string, p: nat) {
    p + IdLength <= |s| && forall i :: p <= i < p + IdLength ==> IsIdChar(Fold(s[i]))
  }

  /** The character at `i` is `/`. */
  predicate SlashAt(s: string, i: nat) {
    i < |s| && Fold(s[i]) == '/'
  }

  /** `[^\/]` on every position from `a` to `b`. */
  predicate NoSlashes(s: string, a: nat, b: nat) {
    forall i :: a <= i < b && i < |s| ==> Fold(s[i]) != '/'
  }

  /** `.` on every position from `a` to `b`: no line terminator. */
  predicate AnyChars(s: string, a: nat, b: nat) {
    forall i :: a <= i < b && i < |s| ==> !IsLineTerminator(Fold(s[i]))
  }

  // ---------------------------------------------------------------------------------------
  // The pattern

  /** `[^\/]+\/.+\/` then the id, from `q`: a first segment, `/`, anything, `/`. */
  predicate SegmentPathAt(s: string, q: nat) {
    exists m: nat, n: nat | q < m < n < |s| ::
      m + 1 < n && NoSlashes(s, q, m) && SlashAt(s, m) && AnyChars(s, m + 1, n) && SlashAt(s, n) && IdAt(s, n + 1)
  }

  /** The words of `(?:v|e(?:mbed)?|live|shorts)`. */
  const PathWords: seq<string> := ["v", "e", "embed", "live", "shorts"]

  /** `(?:v|e(?:mbed)?|live|shorts)\/` then the id, from `q`. */
  predicate WordPathAt(s: string, q: nat) {
    exists t: nat | t < |PathWords| ::
      LitAt(s, q, PathWords[t]) && SlashAt(s, q + |PathWords[t]|) && IdAt(s, q + |PathWords[t]| + 1)
  }

  /** `.*[?&]v=` then the id, from `q`. */
  predicate QueryAt(s: string, q: nat) {
    exists m: nat | q <= m < |s| ::
      AnyChars(s, q, m) && (Fold(s[m]) == '?' || Fold(s[m]) == '&') && LitAt(s, m + 1, "v=") && IdAt(s, m + 3)
  }

  /** The pattern matches starting at position `p`. */
  predicate MatchAt(s: string, p: nat) {
    || (LitAt(s, p, "youtube.com/") && (SegmentPathAt(s, p + 12) || WordPathAt(s, p + 12) || QueryAt(s, p + 12)))
    || (LitAt(s, p, "youtu.be/") && IdAt(s, p + 9))
  }

  /** `validate_youtube_url`: the pattern, which is not anchored, matches somewhere. */
  predicate ValidateYoutubeUrl(url: string) {
    exists p: nat | p <= |url| :: MatchAt(url, p)
  }

  // ---------------------------------------------------------------------------------------
  // What it accepts

  /** Eleven id characters. */
  predicate IsId(id: string) {
    |id| == IdLength && forall i :: 0 <= i < |id| ==> IsIdChar(id[i])
  }

  lemma LitAtConcat(pre: string, lit: string, post: string)
    requires forall i :: 0 <= i < |lit| ==> Fold(lit[i]) == lit[i]
    ensures LitAt(pre + lit + post, |pre|, lit)
  {
    var s := pre + lit + post;
    forall i | 0 <= i < |lit| ensures Fold(s[|pre| + i]) == lit[i] {
      assert s[|pre| + i] == lit[i];
    }
  }

  /** A folded id character is still one. */
  lemma FoldKeepsIdChar(c: char)
    requires IsIdChar(c)
    ensures IsIdChar(Fold(c))
  {
  }

  lemma IdAtConcat(pre: string, id: string, post: string)
    requires IsId(id)
    ensures IdAt(pre + id + post, |pre|)
  {
    var s := pre + id + post;
    forall i | |pre| <= i < |pre| + IdLength ensures IsIdChar(Fold(s[i])) {
      assert s[i] == id[i - |pre|];
      FoldKeepsIdChar(id[i - |pre|]);
    }
  }

  /** `youtu.be/` followed by an id is accepted anywhere in the input. */
  lemma ShortLinkAnywhere(pre: string, id: string, post: string)
    requires IsId(id)
    ensures ValidateYoutubeUrl(pre + "youtu.be/" + id + post)
  {
    var s := pre + "youtu.be/" + id + post;
    LitAtConcat(pre, "youtu.be/", id + post);
    assert pre + "youtu.be/" + (id + post) == s;
    IdAtConcat(pre + "youtu.be/", id, post);
    assert MatchAt(s, |pre|);
  }

  /** `youtube.com/` followed by `v/`, `e/`, `embed/`, `live/` or `shorts/` and an id is
      accepted anywhere in the input. */
  lemma WordPathAnywhere(pre: string, t: nat, id: string, post: string)
    requires t < |PathWords| && IsId(id)
    ensures ValidateYoutubeUrl(pre + "youtube.com/" + PathWords[t] + "/" + id + post)
  {
    var w := PathWords[t];
    var s := pre + "youtube.com/" + w + "/" + id + post;
    var q := |pre| + 12;
    LitAtConcat(pre, "youtube.com/", w + "/" + id + post);
    assert pre + "youtube.com/" + (w + "/" + id + post) == s;
    LitAtConcat(pre + "youtube.com/", w, "/" + id + post);
    assert pre + "youtube.com/" + w + ("/" + id + post) == s;
    assert s[q + |w|] == '/';
    IdAtConcat(pre + "youtube.com/" + w + "/", id, post);
    assert WordPathAt(s, q);
    assert MatchAt(s, |pre|);
  }

  /** `youtube.com/` followed by anything on one line that ends in `?v=` or `&v=`, then an id,
      is accepted anywhere in the input. */
  lemma QueryAnywhere(pre: string, path: string, mark: char, id: string, post: string)
    requires forall i :: 0 <= i < |path| ==> !IsLineTerminator(path[i])
    requires mark == '?' || mark == '&'
    requires IsId(id)
    ensures ValidateYoutubeUrl(pre + "youtube.com/" + path + [mark] + "v=" + id + post)
  {
    var s := pre + "youtube.com/" + path + [mark] + "v=" + id + post;
    var q := |pre| + 12;
    var m := q + |path|;
    LitAtConcat(pre, "youtube.com/", path + [mark] + "v=" + id + post);
    assert pre + "youtube.com/" + (path + [mark] + "v=" + id + post) == s;
    forall i | q <= i < m ensures !IsLineTerminator(Fold(s[i])) {
      assert s[i] == path[i - q];
    }
    assert s[m] == mark;
    LitAtConcat(pre + "youtube.com/" + path + [mark], "v=", id + post);
    assert pre + "youtube.com/" + path + [mark] + "v=" + (id + post) == s;
    IdAtConcat(pre + "youtube.com/" + path + [mark] + "v=", id, post);
    assert QueryAt(s, q);
    assert MatchAt(s, |pre|);
  }

  /** `youtube.com/` followed by a segment without `/`, a `/`, anything on one line, a `/` and
      an id is accepted anywhere in the input. */
  lemma SegmentPathAnywhere(pre: string, seg: string, rest: string, id: string, post: string)
    requires seg != [] && forall i :: 0 <= i < |seg| ==> seg[i] != '/'
    requires rest != [] && forall i :: 0 <= i < |rest| ==> !IsLineTerminator(rest[i])
    requires IsId(id)
    ensures ValidateYoutubeUrl(pre + "youtube.com/" + seg + "/" + rest + "/" + id + post)
  {
    var s := pre + "youtube.com/" + seg + "/" + rest + "/" + id + post;
    var q := |pre| + 12;
    var m := q + |seg|;
    var n := m + 1 + |rest|;
    LitAtConcat(pre, "youtube.com/", seg + "/" + rest + "/" + id + post);
    assert pre + "youtube.com/" + (seg + "/" + rest + "/" + id + post) == s;
    forall i | q <= i < m ensures Fold(s[i]) != '/' {
      assert s[i] == seg[i - q];
    }
    assert s[m] == '/';
    forall i | m + 1 <= i < n ensures !IsLineTerminator(Fold(s[i])) {
      assert s[i] == rest[i - m - 1];
    }
    assert s[n] == '/';
    IdAtConcat(pre + "youtube.com/" + seg + "/" + rest + "/", id, post);
    assert SegmentPathAt(s, q) by {
      assert m + 1 < n && NoSlashes(s, q, m) && SlashAt(s, m) && AnyChars(s, m + 1, n) && SlashAt(s, n) && IdAt(s, n + 1);
    }
    assert MatchAt(s, |pre|);
  }

  /** Where a match starts, an id follows no earlier than nine characters on. */
  lemma IdAfterMatch(url: string, p: nat) returns (d: nat)
    requires MatchAt(url, p)
    ensures p + 9 <= d && IdAt(url, d)
  {
    if LitAt(url, p, "youtu.be/") && IdAt(url, p + 9) {
      d := p + 9;
    } else if SegmentPathAt(url, p + 12) {
      var m: nat, n: nat :| p + 12 < m < n < |url| && m + 1 < n && NoSlashes(url, p + 12, m) && SlashAt(url, m) &&
        AnyChars(url, m + 1, n) && SlashAt(url, n) && IdAt(url, n + 1);
      d := n + 1;
    } else if WordPathAt(url, p + 12) {
      var t: nat :| t < |PathWords| && LitAt(url, p + 12, PathWords[t]) &&
        SlashAt(url, p + 12 + |PathWords[t]|) && IdAt(url, p + 12 + |PathWords[t]| + 1);
      d := p + 12 + |PathWords[t]| + 1;
    } else {
      var m: nat :| p + 12 <= m < |url| && AnyChars(url, p + 12, m) &&
        (Fold(url[m]) == '?' || Fold(url[m]) == '&') && LitAt(url, m + 1, "v=") && IdAt(url, m + 3);
      d := m + 3;
    }
  }

  /** Whatever is accepted holds `youtube.com/` or `youtu.be/` (in any letter case), and an id
      starts no earlier than just after it. */
  lemma AcceptedHasHostAndId(url: string)
    requires ValidateYoutubeUrl(url)
    ensures exists p: nat, d: nat | p <= |url| && p + 9 <= d ::
      (LitAt(url, p, "youtube.com/") || LitAt(url, p, "youtu.be/")) && IdAt(url, d)
  {
    var p: nat :| p <= |url| && MatchAt(url, p);
    var d := IdAfterMatch(url, p);
    assert LitAt(url, p, "youtube.com/") || LitAt(url, p, "youtu.be/");
  }

  // ---------------------------------------------------------------------------------------
  // Letter case

  /** `s` and `t` agree up to ASCII letter case. */
  ghost predicate SameUpToCase(s: string, t: string) {
    |s| == |t| && forall i :: 0 <= i < |s| ==> Fold(s[i]) == Fold(t[i])
  }

  lemma SegmentPathTransfers(s: string, t: string, q: nat)
    requires SameUpToCase(s, t) && SegmentPathAt(s, q)
    ensures SegmentPathAt(t, q)
  {
    var m: nat, n: nat :| q < m < n < |s| && m + 1 < n && NoSlashes(s, q, m) && SlashAt(s, m) &&
      AnyChars(s, m + 1, n) && SlashAt(s, n) && IdAt(s, n + 1);
    assert NoSlashes(t, q, m) && SlashAt(t, m) && AnyChars(t, m + 1, n) && SlashAt(t, n) && IdAt(t, n + 1);
  }

  lemma WordPathTransfers(s: string, t: string, q: nat)
    requires SameUpToCase(s, t) && WordPathAt(s, q)
    ensures WordPathAt(t, q)
  {
    var k: nat :| k < |PathWords| && LitAt(s, q, PathWords[k]) &&
      SlashAt(s, q + |PathWords[k]|) && IdAt(s, q + |PathWords[k]| + 1);
    assert LitAt(t, q, PathWords[k]) && SlashAt(t, q + |PathWords[k]|) && IdAt(t, q + |PathWords[k]| + 1);
  }

  lemma QueryTransfers(s: string, t: string, q: nat)
    requires SameUpToCase(s, t) && QueryAt(s, q)
    ensures QueryAt(t, q)
  {
    var m: nat :| q <= m < |s| && AnyChars(s, q, m) &&
      (Fold(s[m]) == '?' || Fold(s[m]) == '&') && LitAt(s, m + 1, "v=") && IdAt(s, m + 3);
    assert AnyChars(t, q, m) && (Fold(t[m]) == '?' || Fold(t[m]) == '&') && LitAt(t, m + 1, "v=") && IdAt(t, m + 3);
  }

  lemma MatchAtTransfers(s: string, t: string, p: nat)
    requires SameUpToCase(s, t) && MatchAt(s, p)
    ensures MatchAt(t, p)
  {
    if LitAt(s, p, "youtu.be/") && IdAt(s, p + 9) {
      assert LitAt(t, p, "youtu.be/") && IdAt(t, p + 9);
    } else {
      assert LitAt(t, p, "youtube.com/");
      if SegmentPathAt(s, p + 12) {
        SegmentPathTransfers(s, t, p + 12);
      } else if WordPathAt(s, p + 12) {
        WordPathTransfers(s, t, p + 12);
      } else {
        QueryTransfers(s, t, p + 12);
      }
    }
  }

  /** Two strings that agree up to ASCII letter case are accepted alike. */
  lemma CaseInsensitive(s: string, t: string)
    requires |s| == |t| && forall i :: 0 <= i < |s| ==> Fold(s[i]) == Fold(t[i])
    ensures ValidateYoutubeUrl(s) <==> ValidateYoutubeUrl(t)
  {
    assert SameUpToCase(s, t) && SameUpToCase(t, s);
    if ValidateYoutubeUrl(s) {
      var p: nat :| p <= |s| && MatchAt(s, p);
      MatchAtTransfers(s, t, p);
    }
    if ValidateYoutubeUrl(t) {
      var p: nat :| p <= |t| && MatchAt(t, p);
      MatchAtTransfers(t, s, p);
    }
  }

  /** In particular an input is accepted exactly when its lower-case form is. */
  lemma LowerCaseFormIsAcceptedAlike(s: string)
    ensures ValidateYoutubeUrl(s) <==> ValidateYoutubeUrl(FoldAll(s))
  {
    var t := FoldAll(s);
    forall i | 0 <= i < |s| ensures Fold(s[i]) == Fold(t[i]) {
      assert t[i] == Fold(s[i]);
    }
    CaseInsensitive(s, t);
  }

  // ---------------------------------------------------------------------------------------
  // handle_submit

  /** What a submit ends with: an error message shown, or navigation with the URL as state. */
  datatype Outcome = ShowError(message: string) | Navigate(path: string, youtubeUrl: string)

  /** `handle_submit`: a blank URL and a URL the pattern does not find in are reported
      (blankness first); any other URL goes to the clip page exactly as typed. */
  function SubmitOutcome(url: string): (o: Outcome)
    ensures IsBlank(url) <==> o == ShowError(EmptyUrlMessage)
    ensures !IsBlank(url) && !ValidateYoutubeUrl(url) <==> o == ShowError(InvalidUrlMessage)
    ensures o.Navigate? <==> !IsBlank(url) && ValidateYoutubeUrl(url)
    ensures o.Navigate? ==> o == Navigate(GetClipsPath, url)
  {
    if IsBlank(url) then ShowError(EmptyUrlMessage)
    else if !ValidateYoutubeUrl(url) then ShowError(InvalidUrlMessage)
    else Navigate(GetClipsPath, url)
  }

  /** A blank input is never accepted by the pattern either, so the blankness check only
      changes the message. */
  lemma BlankIsRejected(url: string)
    requires IsBlank(url)
    ensures !ValidateYoutubeUrl(url)
  {
    BlankIffAllSpace(url);
    forall p: nat | p <= |url|
      ensures !MatchAt(url, p)
    {
      MatchHasNonSpace(url, p);
    }
  }

  /** A match holds an id character, and no id character is white space. */
  lemma MatchHasNonSpace(url: string, p: nat)
    ensures MatchAt(url, p) ==> exists d :: 0 <= d < |url| && !IsSpace(url[d])
  {
    if MatchAt(url, p) {
      var d := IdAfterMatch(url, p);
      assert IsIdChar(Fold(url[d]));
      assert Fold(url[d]) == url[d] || 'A' <= url[d] <= 'Z';
    }
  }

  /** The form's state: the input, the error shown under it, and where the page navigated. */
  class Form {
    var youtubeUrl: string
    var error: string
    var navigation: Option<Outcome>

    constructor ()
      ensures youtubeUrl == "" && error == "" && navigation == None
    {
      youtubeUrl := "";
      error := "";
      navigation := None;
    }

    /** The input's `onChange`: the text is taken and the error cleared. */
    method OnInput(value: string)
      modifies this`youtubeUrl, this`error
      ensures youtubeUrl == value && error == ""
    {
      youtubeUrl := value;
      error := "";
    }

    /** `handle_submit`: clear the error, then show one or navigate. */
    method HandleSubmit()
      modifies this`error, this`navigation
      ensures SubmitOutcome(youtubeUrl).ShowError? ==>
        error == SubmitOutcome(youtubeUrl).message && navigation == old(navigation)
      ensures SubmitOutcome(youtubeUrl).Navigate? ==>
        error == "" && navigation == Some(SubmitOutcome(youtubeUrl))
    {
      error := "";
      var url := youtubeUrl;
      if IsBlank(url) {
        error := EmptyUrlMessage;
        return;
      }
      var valid := ValidateYoutubeUrl(url);
      if !valid {
        error := InvalidUrlMessage;
        return;
      }
      navigation := Some(Navigate(GetClipsPath, url));
    }
  }
}
