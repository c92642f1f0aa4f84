/** Recognising a window by its title. Both `get_wid` variants lower-case
    the title they look for and every window name, and accept a name that
    fully matches the regular expression `(\S+ - )*` + title + `( - \S+)*`:
    any number of " - "-separated words before the title and after it,
    as window managers and the viewer decorate titles. The title is taken
    literally (it carries no regular-expression metacharacters). */
module Titles {
  import opened Common

  /** Python's `\s` on a `str`: the Unicode white-space characters. */
  predicate IsSpace(c: char) {
    || c == ' '
    || '\U{9}' <= c <= '\U{D}'
    || '\U{1C}' <= c <= '\U{1F}'
    || c == '\U{85}' || c == '\U{A0}' || c == '\U{1680}'
    || '\U{2000}' <= c <= '\U{200A}'
    || c == '\U{2028}' || c == '\U{2029}' || c == '\U{202F}' || c == '\U{205F}' || c == '\U{3000}'
  }

  /** `str.lower` restricted to ASCII letters. */
  function LowerChar(c: char): char {
    if 'A' <= c <= 'Z' then (c as int + 32) as char else c
  }

  function Lower(s: string): (r: string)
    ensures |r| == |s|
  {
    seq(|s|, i requires 0 <= i < |s| => LowerChar(s[i]))
  }

  /** A match of `\S+`: a non-empty run of non-space characters. */
  predicate IsWord(w: string) {
    w != [] && forall i | 0 <= i < |w| :: !IsSpace(w[i])
  }

  const Separator: string := " - "

  // ------------------------------------------------- the matching itself

  /** The length of the run of non-space characters `s` starts with. */
  function WordLength(s: string): (k: nat)
    ensures k <= |s|
    ensures forall i | 0 <= i < k :: !IsSpace(s[i])
    ensures k == |s| || IsSpace(s[k])
  {
    if s == [] || IsSpace(s[0]) then 0 else 1 + WordLength(s[1..])
  }

  /** Does `p` match `(\S+ - )*`? Each word is the longest non-space run,
      since the separator that must follow it starts with a space. */
  predicate IsPrefixRun(p: string)
    decreases |p|
  {
    p == [] ||
    var k := WordLength(p);
    0 < k && k + 3 <= |p| && p[k..k + 3] == Separator && IsPrefixRun(p[k + 3..])
  }

  /** Does `s` match `( - \S+)*`? */
  predicate IsSuffixRun(s: string)
    decreases |s|
  {
    s == [] ||
    (3 <= |s| && s[..3] == Separator &&
     var k := WordLength(s[3..]);
     0 < k && IsSuffixRun(s[3 + k..]))
  }

  /** `name` is the title at position `i` with decorations around it. */
  predicate MatchesAt(name: string, title: string, i: int) {
    0 <= i && i + |title| <= |name| &&
    name[i..i + |title|] == title && IsPrefixRun(name[..i]) && IsSuffixRun(name[i + |title|..])
  }

  /** `re.fullmatch` of the decorated-title pattern. */
  predicate FullMatch(name: string, title: string) {
    exists i | 0 <= i <= |name| :: MatchesAt(name, title, i)
  }

  /** The case-insensitive test both `get_wid` variants apply. */
  predicate TitleMatches(name: string, title: string) {
    FullMatch(Lower(name), Lower(title))
  }

  // ----------------------------------------- the pattern as a language

  /** `w1 - w2 - ... - ` */
  function JoinPrefix(words: seq<string>): string {
    if words == [] then [] else words[0] + Separator + JoinPrefix(words[1..])
  }

  /** ` - w1 - w2 ...` */
  function JoinSuffix(words: seq<string>): string {
    if words == [] then [] else Separator + words[0] + JoinSuffix(words[1..])
  }

  predicate AllWords(words: seq<string>) {
    forall i | 0 <= i < |words| :: IsWord(words[i])
  }

  /** The language of the pattern: words before, the title, words after. */
  ghost predicate InPattern(name: string, title: string) {
    exists before: seq<string>, after: seq<string> ::
      AllWords(before) && AllWords(after) && name == JoinPrefix(before) + title + JoinSuffix(after)
  }

  lemma SplitThree(s: string, i: nat, j: nat)
    requires i <= j <= |s|
    ensures s == s[..i] + s[i..j] + s[j..]
  {
  }

  /** A word followed by nothing or by a space is measured exactly. */
  lemma {:induction false} WordLengthOfWord(w: string, rest: string)
    requires IsWord(w)
    requires rest == [] || IsSpace(rest[0])
    ensures WordLength(w + rest) == |w|
    decreases |w|
  {
    if |w| > 1 {
      assert (w + rest)[1..] == w[1..] + rest;
      WordLengthOfWord(w[1..], rest);
    } else {
      assert (w + rest)[1..] == rest;
    }
  }

  lemma {:induction false} PrefixRunWords(p: string) returns (words: seq<string>)
    requires IsPrefixRun(p)
    ensures AllWords(words) && JoinPrefix(words) == p
    decreases |p|
  {
    if p == [] {
      words := [];
    } else {
      var k := WordLength(p);
      var rest := PrefixRunWords(p[k + 3..]);
      LeadingWord(p, k);
      words := [p[..k]] + rest;
      AllWordsCons(p[..k], rest);
      JoinPrefixCons(p[..k], rest);
      SplitAtSeparator(p, k);
    }
  }

  lemma JoinPrefixCons(w: string, words: seq<string>)
    ensures JoinPrefix([w] + words) == w + Separator + JoinPrefix(words)
  {
    assert ([w] + words)[0] == w && ([w] + words)[1..] == words;
  }

  /** A string with the separator at `k` is its three pieces. */
  lemma SplitAtSeparator(p: string, k: nat)
    requires k + 3 <= |p| && p[k..k + 3] == Separator
    ensures p == p[..k] + Separator + p[k + 3..]
  {
    assert p == p[..k] + p[k..k + 3] + p[k + 3..];
  }

  lemma AllWordsCons(w: string, rest: seq<string>)
    requires IsWord(w) && AllWords(rest)
    ensures AllWords([w] + rest) && ([w] + rest)[0] == w && ([w] + rest)[1..] == rest
  {
  }

  /** The non-space run a string starts with is a word when it is not
      empty. */
  lemma LeadingWord(p: string, k: nat)
    requires k == WordLength(p) && 0 < k
    ensures IsWord(p[..k])
  {
  }

  lemma AllWordsTail(words: seq<string>)
    requires words != [] && AllWords(words)
    ensures AllWords(words[1..])
  {
    forall i | 0 <= i < |words[1..]| ensures IsWord(words[1..][i]) {
      assert words[1..][i] == words[i + 1];
    }
  }

  lemma SplitWordSeparator(p: string, w: string, rest: string)
    requires p == w + (Separator + rest)
    ensures p[|w|..|w| + 3] == Separator && p[|w| + 3..] == rest
  {
  }

  lemma {:induction false} WordsPrefixRun(words: seq<string>)
    requires AllWords(words)
    ensures IsPrefixRun(JoinPrefix(words))
    decreases |words|
  {
    if words != [] {
      var w, rest := words[0], JoinPrefix(words[1..]);
      AllWordsTail(words);
      WordsPrefixRun(words[1..]);
      var p := JoinPrefix(words);
      assert p == w + (Separator + rest);
      WordLengthOfWord(w, Separator + rest);
      SplitWordSeparator(p, w, rest);
    }
  }

  lemma {:induction false} SuffixRunWords(s: string) returns (words: seq<string>)
    requires IsSuffixRun(s)
    ensures AllWords(words) && JoinSuffix(words) == s
    decreases |s|
  {
    if s == [] {
      words := [];
    } else {
      var k := WordLength(s[3..]);
      assert s[3..][..k] == s[3..3 + k];
      var rest := SuffixRunWords(s[3 + k..]);
      LeadingWord(s[3..], k);
      words := [s[3..3 + k]] + rest;
      AllWordsCons(s[3..3 + k], rest);
      assert s == Separator + s[3..3 + k] + s[3 + k..];
    }
  }

  lemma {:induction false} WordsSuffixRun(words: seq<string>)
    requires AllWords(words)
    ensures IsSuffixRun(JoinSuffix(words))
    decreases |words|
  {
    if words != [] {
      var w, rest := words[0], JoinSuffix(words[1..]);
      AllWordsTail(words);
      WordsSuffixRun(words[1..]);
      var s := JoinSuffix(words);
      assert s == Separator + (w + rest);
      assert s[..3] == Separator;
      assert s[3..] == w + rest;
      assert rest == [] || rest[0] == ' ';
      WordLengthOfWord(w, rest);
      assert s[3 + |w|..] == rest;
    }
  }

  lemma {:induction false} MatchIsInPattern(name: string, title: string)
    requires FullMatch(name, title)
    ensures InPattern(name, title)
  {
    var i :| 0 <= i <= |name| && MatchesAt(name, title, i);
    var before := PrefixRunWords(name[..i]);
    var after := SuffixRunWords(name[i + |title|..]);
    SplitThree(name, i, i + |title|);
  }

  lemma {:induction false} PatternIsMatched(name: string, title: string, before: seq<string>, after: seq<string>)
    requires AllWords(before) && AllWords(after)
    requires name == JoinPrefix(before) + title + JoinSuffix(after)
    ensures FullMatch(name, title)
  {
    WordsPrefixRun(before);
    WordsSuffixRun(after);
    var i := |JoinPrefix(before)|;
    assert name[..i] == JoinPrefix(before);
    assert name[i..i + |title|] == title;
    assert name[i + |title|..] == JoinSuffix(after);
    assert MatchesAt(name, title, i);
  }

  /** The matcher accepts exactly the language of the pattern. */
  lemma FullMatchIsPattern(name: string, title: string)
    ensures FullMatch(name, title) <==> InPattern(name, title)
  {
    if FullMatch(name, title) {
      MatchIsInPattern(name, title);
    }
    if InPattern(name, title) {
      var before, after :| AllWords(before) && AllWords(after) && name == JoinPrefix(before) + title + JoinSuffix(after);
      PatternIsMatched(name, title, before, after);
    }
  }

  /** A window name matches a title iff, lower-cased, it is the title with
      zero or more "word - " in front and zero or more " - word" behind. */
  lemma TitleMatchesIsPattern(name: string, title: string)
    ensures TitleMatches(name, title) <==> InPattern(Lower(name), Lower(title))
  {
    FullMatchIsPattern(Lower(name), Lower(title));
  }

  /** A bare title matches itself. */
  lemma BareTitleMatches()
    ensures TitleMatches("viewer", "viewer")
  {
    assert Lower("viewer") == "viewer";
    assert MatchesAt("viewer", "viewer", 0);
  }

  /** A leading "word - " is accepted. */
  lemma PrefixedTitleMatches()
    ensures TitleMatches("model - viewer", "viewer")
  {
    assert Lower("model - viewer") == "model - viewer";
    assert Lower("viewer") == "viewer";
    PatternIsMatched("model - viewer", "viewer", ["model"], []);
  }

  /** A trailing " - word" is accepted. */
  lemma SuffixedTitleMatches()
    ensures TitleMatches("viewer - unsaved", "viewer")
  {
    assert Lower("viewer - unsaved") == "viewer - unsaved";
    assert Lower("viewer") == "viewer";
    PatternIsMatched("viewer - unsaved", "viewer", [], ["unsaved"]);
  }

  /** Letter case is ignored on both sides: names and titles with the same
      lower-case forms give the same answer. */
  lemma TitleCaseIgnored(name: string, name': string, title: string, title': string)
    requires Lower(name) == Lower(name') && Lower(title) == Lower(title')
    ensures TitleMatches(name, title) <==> TitleMatches(name', title')
  {
  }

  /** The viewer's own title in mixed case matches it in another case. */
  lemma MixedCaseTitleMatches()
    ensures TitleMatches("CalculiX GraphiX", "calculix GRAPHIX")
  {
    SameLowerMatches("CalculiX GraphiX", "calculix GRAPHIX", "calculix graphix");
  }

  /** Two strings with the same lower-case form match each other. */
  lemma SameLowerMatches(name: string, title: string, lower: string)
    requires Lower(name) == lower && Lower(title) == lower
    ensures TitleMatches(name, title)
  {
    assert lower[..0] == [] && lower[|lower|..] == [];
    assert MatchesAt(lower, lower, 0);
  }

  /** A longer word is not mistaken for the title. */
  lemma LongerWordDoesNotMatch()
    ensures !TitleMatches("viewers", "viewer")
  {
    assert Lower("viewers") == "viewers";
    assert Lower("viewer") == "viewer";
    forall i | 0 <= i <= 7 ensures !MatchesAt("viewers", "viewer", i) {
      if i == 0 {
        assert "viewers"[6..] == "s";
      }
    }
  }

  // ----------------------------------------------- choosing the window

  /** A top-level window as the OS enumerates it. */
  datatype WindowInfo = WindowInfo(id: Wid, name: string, visible: bool)

  /** Linux `get_wid`: the first client in `_NET_CLIENT_LIST` order whose
      name matches (visibility is not consulted). */
  function FirstMatch(windows: seq<WindowInfo>, title: string): Option<Wid>
    decreases |windows|
  {
    if windows == [] then None
    else if TitleMatches(windows[0].name, title) then Some(windows[0].id)
    else FirstMatch(windows[1..], title)
  }

  /** Windows `get_wid`: the callback overwrites the answer at every
      visible match, so the last visible match in `EnumWindows` order wins. */
  function LastVisibleMatch(windows: seq<WindowInfo>, title: string): Option<Wid>
    decreases |windows|
  {
    if windows == [] then None
    else if Last(windows).visible && TitleMatches(Last(windows).name, title) then Some(Last(windows).id)
    else LastVisibleMatch(Init(windows), title)
  }

  predicate Candidate(os: Os, w: WindowInfo, title: string) {
    (os == Windows ==> w.visible) && TitleMatches(w.name, title)
  }

  /** Linux picks the first matching window, and nothing when none matches. */
  lemma {:induction false} FirstMatchIsFirst(windows: seq<WindowInfo>, title: string)
    ensures FirstMatch(windows, title).None? <==>
      forall i | 0 <= i < |windows| :: !Candidate(Linux, windows[i], title)
    ensures FirstMatch(windows, title).Some? ==>
      exists i | 0 <= i < |windows| ::
        && windows[i].id == FirstMatch(windows, title).value
        && Candidate(Linux, windows[i], title)
        && forall j | 0 <= j < i :: !Candidate(Linux, windows[j], title)
    decreases |windows|
  {
    if windows != [] && !TitleMatches(windows[0].name, title) {
      var tail := windows[1..];
      FirstMatchIsFirst(tail, title);
      if FirstMatch(tail, title).Some? {
        var i :| 0 <= i < |tail| && tail[i].id == FirstMatch(tail, title).value
          && Candidate(Linux, tail[i], title) && forall j | 0 <= j < i :: !Candidate(Linux, tail[j], title);
        assert windows[i + 1] == tail[i];
        forall j | 0 <= j < i + 1 ensures !Candidate(Linux, windows[j], title) {
          if j > 0 { assert windows[j] == tail[j - 1]; }
        }
      } else {
        forall i | 0 <= i < |windows| ensures !Candidate(Linux, windows[i], title) {
          if i > 0 { assert windows[i] == tail[i - 1]; }
        }
      }
    } else if windows != [] {
      assert Candidate(Linux, windows[0], title);
    }
  }

  /** Windows finds nothing exactly when no window is a visible match. */
  lemma {:induction false} NoVisibleMatch(windows: seq<WindowInfo>, title: string)
    ensures LastVisibleMatch(windows, title).None? <==>
      forall i | 0 <= i < |windows| :: !Candidate(Windows, windows[i], title)
    decreases |windows|
  {
    if windows != [] {
      var front := Init(windows);
      if Candidate(Windows, Last(windows), title) {
        assert Candidate(Windows, windows[|windows| - 1], title);
      } else {
        NoVisibleMatch(front, title);
        assert forall i | 0 <= i < |front| :: windows[i] == front[i];
        assert windows[|front|] == Last(windows);
      }
    }
  }

  /** Windows picks the last visible matching window. */
  lemma {:induction false} LastVisibleMatchIsLast(windows: seq<WindowInfo>, title: string)
    ensures LastVisibleMatch(windows, title).Some? ==> IsLastCandidate(windows, title, LastVisibleMatch(windows, title).value)
    decreases |windows|
  {
    if windows != [] {
      if Candidate(Windows, Last(windows), title) {
        var i := |windows| - 1;
        assert windows[i].id == LastVisibleMatch(windows, title).value && Candidate(Windows, windows[i], title);
      } else {
        LastVisibleMatchIsLast(Init(windows), title);
        if LastVisibleMatch(Init(windows), title).Some? {
          SkipNonCandidate(windows, title, LastVisibleMatch(Init(windows), title).value);
        }
      }
    }
  }

  /** `id` belongs to a visible match with no visible match after it. */
  predicate IsLastCandidate(windows: seq<WindowInfo>, title: string, id: Wid) {
    exists i | 0 <= i < |windows| ::
      && windows[i].id == id
      && Candidate(Windows, windows[i], title)
      && forall j | i < j < |windows| :: !Candidate(Windows, windows[j], title)
  }

  /** A last window that is not a visible match does not change which is
      the last one. */
  lemma SkipNonCandidate(windows: seq<WindowInfo>, title: string, id: Wid)
    requires windows != [] && !Candidate(Windows, Last(windows), title)
    requires IsLastCandidate(Init(windows), title, id)
    ensures IsLastCandidate(windows, title, id)
  {
    var front := Init(windows);
    var i :| 0 <= i < |front| && front[i].id == id
      && Candidate(Windows, front[i], title) && forall j | i < j < |front| :: !Candidate(Windows, front[j], title);
    assert windows[i] == front[i];
    forall j | i < j < |windows| ensures !Candidate(Windows, windows[j], title) {
      if j < |front| { assert windows[j] == front[j]; } else { assert windows[j] == Last(windows); }
    }
    assert windows[i].id == id && Candidate(Windows, windows[i], title);
  }

  /** With a single visible candidate and no hidden one, the two OS
      variants find the same window. */
  lemma SingleMatchAgrees(windows: seq<WindowInfo>, title: string, k: nat)
    requires k < |windows| && windows[k].visible && TitleMatches(windows[k].name, title)
    requires forall i | 0 <= i < |windows| && i != k :: !TitleMatches(windows[i].name, title)
    ensures FirstMatch(windows, title) == LastVisibleMatch(windows, title) == Some(windows[k].id)
  {
    FirstMatchIsFirst(windows, title);
    NoVisibleMatch(windows, title);
    LastVisibleMatchIsLast(windows, title);
    assert Candidate(Linux, windows[k], title);
    assert Candidate(Windows, windows[k], title);
  }

  /** One `get_wid` lookup of `os` over the windows enumerated at that moment. */
  function Probe(os: Os, windows: seq<WindowInfo>, title: string): Option<Wid> {
    match os
    case Linux => FirstMatch(windows, title)
    case Windows => LastVisibleMatch(windows, title)
  }

  /** The lookups a polling loop would make, one per snapshot of the
      window list. */
  function Probes(os: Os, snapshots: seq<seq<WindowInfo>>, title: string): (r: seq<Option<Wid>>)
    ensures |r| == |snapshots|
  {
    seq(|snapshots|, k requires 0 <= k < |snapshots| => Probe(os, snapshots[k], title))
  }
}
