/** The first landing page: a form that checks a YouTube watch or short link at the start of
    the input and hands the URL, as typed, to the clip editor. */
module LandingPage {
  import opened JsText

  const EmptyUrlMessage := "Please enter a YouTube URL"
  const InvalidUrlMessage := "Please enter a valid YouTube URL (e.g., https://www.youtube.com/watch?v=...)"
  const ClipEditorPath := "/clip-editor"

  /** `[\w-]`: an ASCII letter, digit, underscore or hyphen. */
  predicate IsWordChar(c: char) {
    ('a' <= c <= 'z') || ('A' <= c <= 'Z') || ('0' <= c <= '9') || c == '_' || c == '-'
  }

  predicate StartsWith(s: string, p: string) {
    |p| <= |s| && s[..|p|] == p
  }

  // ---------------------------------------------------------------------------------------
  // The pattern, alternative by alternative

  /** The choices of `(https?:\/\/)?`, `(www\.)?` and `(youtube\.com\/watch\?v=|youtu\.be\/)`. */
  const Schemes: seq<string> := ["", "http://", "https://"]
  const Wwws: seq<string> := ["", "www."]
  const Hosts: seq<string> := ["youtube.com/watch?v=", "youtu.be/"]

  /** The pattern matches at the start with the `i`-th scheme, the `j`-th `www.` choice and
      the `k`-th host, followed by at least one character of `[\w-]` (the rest is free). */
  predicate MatchesWith(url: string, i: nat, j: nat, k: nat)
    requires i < |Schemes| && j < |Wwws| && k < |Hosts|
  {
    var a := |Schemes[i]|;
    var b := a + |Wwws[j]|;
    var c := b + |Hosts[k]|;
    && StartsWith(url, Schemes[i])
    && StartsWith(url[a..], Wwws[j])
    && StartsWith(url[b..], Hosts[k])
    && c < |url| && IsWordChar(url[c])
  }

  /** `youtubeRegex.test(url)`, stated as the regular expression's meaning: some choice of the
      optional groups and of the host alternative matches at the start of the string. */
  predicate PatternMatches(url: string) {
    exists i: nat, j: nat, k: nat :: i < |Schemes| && j < |Wwws| && k < |Hosts| && MatchesWith(url, i, j, k)
  }

  // ---------------------------------------------------------------------------------------
  // validate_youtube_url

  function SchemeLength(url: string): nat {
    if StartsWith(url, "https://") then 8 else if StartsWith(url, "http://") then 7 else 0
  }

  function WwwLength(s: string): nat {
    if StartsWith(s, "www.") then 4 else 0
  }

  function HostLength(s: string): Option<nat> {
    if StartsWith(s, "youtube.com/watch?v=") then Some(20)
    else if StartsWith(s, "youtu.be/") then Some(9)
    else None
  }

  /** `validate_youtube_url`: the match the engine finds, taking each optional group when it
      is there. */
  function ValidateYoutubeUrl(url: string): bool {
    var a := SchemeLength(url);
    var b := a + WwwLength(url[a..]);
    match HostLength(url[b..])
    case None => false
    case Some(c) => b + c < |url| && IsWordChar(url[b + c])
  }

  /** A scheme followed by `w` or `y` is the one the engine takes. */
  lemma SchemeDetermined(url: string, i: nat)
    requires i < |Schemes| && StartsWith(url, Schemes[i])
    requires |Schemes[i]| < |url| && (url[|Schemes[i]|] == 'w' || url[|Schemes[i]|] == 'y')
    ensures SchemeLength(url) == |Schemes[i]|
  {
    if i == 0 {
      assert !StartsWith(url, "https://") && !StartsWith(url, "http://") by {
        assert "https://"[0] == 'h' && "http://"[0] == 'h';
        if |url| >= 7 { assert url[..7][0] == url[0]; }
        if |url| >= 8 { assert url[..8][0] == url[0]; }
      }
    } else if i == 1 {
      assert url[..7] == "http://";
      assert !StartsWith(url, "https://") by {
        if |url| >= 8 { assert url[..8][4] == url[..7][4] == ':'; }
      }
    } else {
      assert url[..8] == "https://";
    }
  }

  /** A `www.` choice followed by `y` is the one the engine takes. */
  lemma WwwDetermined(s: string, j: nat)
    requires j < |Wwws| && StartsWith(s, Wwws[j])
    requires |Wwws[j]| < |s| && s[|Wwws[j]|] == 'y'
    ensures WwwLength(s) == |Wwws[j]|
  {
    if j == 0 {
      assert !StartsWith(s, "www.") by {
        if |s| >= 4 { assert s[..4][0] == s[0]; }
      }
    } else {
      assert s[..4] == "www.";
    }
  }

  /** The two hosts exclude each other. */
  lemma HostDetermined(s: string, k: nat)
    requires k < |Hosts| && StartsWith(s, Hosts[k])
    ensures HostLength(s) == Some(|Hosts[k]|)
  {
    if k == 0 {
      assert s[..20] == "youtube.com/watch?v=";
    } else {
      assert s[..9] == "youtu.be/";
      assert !StartsWith(s, "youtube.com/watch?v=") by {
        if |s| >= 20 { assert s[..20][5] == s[..9][5] == '.'; }
      }
    }
  }

  /** What follows a scheme starts with `w` or `y`, and what follows a `www.` choice with `y`. */
  lemma NextCharacters(url: string, i: nat, j: nat, k: nat)
    requires i < |Schemes| && j < |Wwws| && k < |Hosts| && MatchesWith(url, i, j, k)
    ensures var a := |Schemes[i]|;
      a < |url| && (url[a] == 'w' || url[a] == 'y') &&
      a + |Wwws[j]| < |url| && url[a + |Wwws[j]|] == 'y'
  {
    var a := |Schemes[i]|;
    var b := a + |Wwws[j]|;
    assert url[b..][..|Hosts[k]|] == Hosts[k];
    assert url[b] == url[b..][..|Hosts[k]|][0];
    assert Hosts[k][0] == 'y';
    if j == 1 {
      assert url[a..][..4] == "www.";
      assert url[a] == url[a..][..4][0];
    }
  }

  /** The scheme the engine takes is one of the pattern's choices. */
  lemma SchemeChoice(url: string) returns (i: nat)
    ensures i < |Schemes| && |Schemes[i]| == SchemeLength(url) && StartsWith(url, Schemes[i])
  {
    if StartsWith(url, "https://") {
      i := 2;
    } else if StartsWith(url, "http://") {
      i := 1;
    } else {
      i := 0;
    }
  }

  /** The `www.` choice the engine takes is one of the pattern's choices. */
  lemma WwwChoice(s: string) returns (j: nat)
    ensures j < |Wwws| && |Wwws[j]| == WwwLength(s) && StartsWith(s, Wwws[j])
  {
    j := if StartsWith(s, "www.") then 1 else 0;
  }

  /** A host the engine finds is one of the pattern's choices. */
  lemma HostChoice(s: string) returns (k: nat)
    requires HostLength(s).Some?
    ensures k < |Hosts| && Some(|Hosts[k]|) == HostLength(s) && StartsWith(s, Hosts[k])
  {
    k := if StartsWith(s, "youtube.com/watch?v=") then 0 else 1;
  }

  /** The engine's match is one the pattern allows. */
  lemma ValidateImpliesPattern(url: string)
    requires ValidateYoutubeUrl(url)
    ensures PatternMatches(url)
  {
    var i := SchemeChoice(url);
    var a := |Schemes[i]|;
    var j := WwwChoice(url[a..]);
    var b := a + |Wwws[j]|;
    var k := HostChoice(url[b..]);
    assert MatchesWith(url, i, j, k);
  }

  /** Any match the pattern allows is the one the engine finds. */
  lemma PatternImpliesValidate(url: string, i: nat, j: nat, k: nat)
    requires i < |Schemes| && j < |Wwws| && k < |Hosts| && MatchesWith(url, i, j, k)
    ensures ValidateYoutubeUrl(url)
  {
    NextCharacters(url, i, j, k);
    var a := |Schemes[i]|;
    SchemeDetermined(url, i);
    WwwDetermined(url[a..], j);
    assert url[a..][|Wwws[j]|..] == url[a + |Wwws[j]|..];
    HostDetermined(url[a + |Wwws[j]|..], k);
  }

  /** The engine's match and the pattern's meaning agree on every string. */
  lemma ValidateMeansPatternMatches(url: string)
    ensures ValidateYoutubeUrl(url) <==> PatternMatches(url)
  {
    if ValidateYoutubeUrl(url) {
      ValidateImpliesPattern(url);
    }
    if PatternMatches(url) {
      var i: nat, j: nat, k: nat :| i < |Schemes| && j < |Wwws| && k < |Hosts| && MatchesWith(url, i, j, k);
      PatternImpliesValidate(url, i, j, k);
    }
  }

  /** A prefix survives appending, and dropping a prefix commutes with appending. */
  lemma AppendKeepsPrefix(s: string, p: string, tail: string)
    requires StartsWith(s, p)
    ensures StartsWith(s + tail, p) && (s + tail)[|p|..] == s[|p|..] + tail
  {
    assert (s + tail)[..|p|] == s[..|p|];
  }

  /** The pattern is not anchored at the end: anything may follow a match. */
  lemma TrailingTextIsAccepted(url: string, tail: string)
    requires ValidateYoutubeUrl(url)
    ensures ValidateYoutubeUrl(url + tail)
  {
    ValidateImpliesPattern(url);
    var i: nat, j: nat, k: nat :| i < |Schemes| && j < |Wwws| && k < |Hosts| && MatchesWith(url, i, j, k);
    var a := |Schemes[i]|;
    var b := a + |Wwws[j]|;
    var s := url + tail;
    AppendKeepsPrefix(url, Schemes[i], tail);
    AppendKeepsPrefix(url[a..], Wwws[j], tail);
    assert url[a..][|Wwws[j]|..] == url[b..];
    assert s[a..][|Wwws[j]|..] == s[b..];
    AppendKeepsPrefix(url[b..], Hosts[k], tail);
    assert s[b + |Hosts[k]|] == url[b + |Hosts[k]|];
    assert MatchesWith(s, i, j, k);
    PatternImpliesValidate(s, i, j, k);
  }

  /** Every form the pattern names is accepted: any scheme choice, any `www.` choice, either
      host, then an id that starts with a character of `[\w-]`. */
  lemma EveryListedFormIsAccepted(i: nat, j: nat, k: nat, id: string)
    requires i < |Schemes| && j < |Wwws| && k < |Hosts|
    requires id != [] && IsWordChar(id[0])
    ensures ValidateYoutubeUrl(Schemes[i] + Wwws[j] + Hosts[k] + id)
  {
    var url := Schemes[i] + Wwws[j] + Hosts[k] + id;
    PiecesInPlace(Schemes[i], Wwws[j], Hosts[k], id);
    assert MatchesWith(url, i, j, k);
    PatternImpliesValidate(url, i, j, k);
  }

  /** In `sc + ww + ho + id`, each piece starts where the previous one ends. */
  lemma PiecesInPlace(sc: string, ww: string, ho: string, id: string)
    requires id != []
    ensures var url := sc + ww + ho + id;
      var a := |sc|;
      var b := a + |ww|;
      && StartsWith(url, sc) && StartsWith(url[a..], ww) && StartsWith(url[b..], ho)
      && b + |ho| < |url| && url[b + |ho|] == id[0]
  {
    var url := sc + ww + ho + id;
    var a := |sc|;
    var b := a + |ww|;
    assert url == sc + (ww + (ho + id));
    assert url[..a] == sc;
    assert url[a..] == ww + (ho + id);
    assert url[a..][..|ww|] == ww;
    assert url[b..] == ho + id;
    assert url[b..][..|ho|] == ho;
  }

  // ---------------------------------------------------------------------------------------
  // handle_submit

  /** What a submit ends with: an error message shown, or navigation with the URL as state. */
  datatype Outcome = ShowError(message: string) | Navigate(path: string, youtubeUrl: string)

  /** `handle_submit`: a blank URL and a URL the pattern rejects are reported (blankness
      first); any other URL goes to the clip editor exactly as typed. */
  function SubmitOutcome(url: string): (o: Outcome)
    ensures IsBlank(url) <==> o == ShowError(EmptyUrlMessage)
    ensures !IsBlank(url) && !PatternMatches(url) <==> o == ShowError(InvalidUrlMessage)
    ensures o.Navigate? <==> !IsBlank(url) && PatternMatches(url)
    ensures o.Navigate? ==> o == Navigate(ClipEditorPath, url)
  {
    ValidateMeansPatternMatches(url);
    if IsBlank(url) then ShowError(EmptyUrlMessage)
    else if !ValidateYoutubeUrl(url) then ShowError(InvalidUrlMessage)
    else Navigate(ClipEditorPath, url)
  }

  /** The form's state: the input, the error shown under it, and where the page navigated. */
  class Form {
    var youtubeUrl: string
    var error: string
    var navigation: Option<Outcome>

    constructor ()
      ensures youtubeUrl == "" && error == "" && navigation == None
    {
      youtubeUrl := "";
      error := "";
      navigation := None;
    }

    /** The input's `onChange`: the text is taken and the error cleared. */
    method OnInput(value: string)
      modifies this`youtubeUrl, this`error
      ensures youtubeUrl == value && error == ""
    {
      youtubeUrl := value;
      error := "";
    }

    /** `handle_submit`: clear the error, then show one or navigate. */
    method HandleSubmit()
      modifies this`error, this`navigation
      ensures SubmitOutcome(youtubeUrl).ShowError? ==>
        error == SubmitOutcome(youtubeUrl).message && navigation == old(navigation)
      ensures SubmitOutcome(youtubeUrl).Navigate? ==>
        error == "" && navigation == Some(SubmitOutcome(youtubeUrl))
    {
      error := "";
      if IsBlank(youtubeUrl) {
        error := EmptyUrlMessage;
        return;
      }
      if !ValidateYoutubeUrl(youtubeUrl) {
        error := InvalidUrlMessage;
        return;
      }
      navigation := Some(Navigate(ClipEditorPath, youtubeUrl));
    }
  }
}
