/** The topic selector: the trimmed free-text submit, the difficulty choice, the start from a
    trending topic, and the trending-topics fetch with its two fallback lists and the
    `mounted` guard that drops updates after the selector is unmounted. */
module Topics {
  import opened Wrappers
  import opened Types
  import opened Gemini

  const Difficulties := ["Easy", "Medium", "Hard", MixedDifficulty]

  /** Shown when the fetch returns an empty list. */
  const EmptyListFallback := [
    TopicSuggestion("World History", "History"),
    TopicSuggestion("Modern Tech", "Technology"),
    TopicSuggestion("Pop Culture", "Entertainment"),
    TopicSuggestion("Nature & Space", "Science")]

  /** Shown when the fetch throws. */
  const ErrorFallback := [
    TopicSuggestion("World History", "History"),
    TopicSuggestion("JavaScript", "Technology"),
    TopicSuggestion("Literature", "Literature"),
    TopicSuggestion("Space Exploration", "Science")]

  /** What the awaited trending-topics call did. */
  datatype TopicFetch = Fetched(topics: seq<TopicSuggestion>) | FetchThrew

  /** The arguments of `onStart`. */
  datatype StartRequest = StartRequest(topic: string, difficulty: string)

  /** The white space and line terminators that `String.prototype.trim` removes. */
  predicate IsJsWhitespace(c: char)
  {
    || c == '\t' || c == '\n' || c == '\U{000B}' || c == '\U{000C}' || c == '\r' || c == ' '
    || c == '\U{00A0}' || c == '\U{1680}' || ('\U{2000}' <= c <= '\U{200A}')
    || c == '\U{2028}' || c == '\U{2029}' || c == '\U{202F}' || c == '\U{205F}' || c == '\U{3000}'
    || c == '\U{FEFF}'
  }

  /** The number of white-space characters at the start of s. */
  function LeadingSpace(s: string): (n: nat)
    ensures n <= |s|
    ensures forall k :: 0 <= k < n ==> IsJsWhitespace(s[k])
    ensures n < |s| ==> !IsJsWhitespace(s[n])
  {
    if s == [] || !IsJsWhitespace(s[0]) then 0 else 1 + LeadingSpace(s[1..])
  }

  /** The number of white-space characters at the end of s. */
  function TrailingSpace(s: string): (n: nat)
    ensures n <= |s|
    ensures forall k :: |s| - n <= k < |s| ==> IsJsWhitespace(s[k])
    ensures n < |s| ==> !IsJsWhitespace(s[|s| - n - 1])
  {
    if s == [] || !IsJsWhitespace(s[|s| - 1]) then 0 else 1 + TrailingSpace(s[..|s| - 1])
  }

  /** `String.prototype.trim`: s without the white space at either end. */
  function Trim(s: string): (r: string)
    ensures var i := LeadingSpace(s);
      && i + |r| <= |s| && r == s[i..i + |r|]
      && forall k :: i + |r| <= k < |s| ==> IsJsWhitespace(s[k])
    ensures r == "" <==> forall k :: 0 <= k < |s| ==> IsJsWhitespace(s[k])
    ensures r != "" ==> !IsJsWhitespace(r[0]) && !IsJsWhitespace(r[|r| - 1])
  {
    var i := LeadingSpace(s);
    if i == |s| then ""
    else
      var j := TrailingSpace(s);
      s[i..|s| - j]
  }

  /** Trimming twice is trimming once. */
  lemma TrimIdempotent(s: string)
    ensures Trim(Trim(s)) == Trim(s)
  {
    var r := Trim(s);
    if r != [] {
      assert LeadingSpace(r) == 0;
      assert TrailingSpace(r) == 0;
    }
  }

  /** `handleSubmit`: start only when the trimmed input is non-empty, with the trimmed topic. */
  function SubmitTopic(input: string, difficulty: string): (r: Option<StartRequest>)
    ensures r.None? <==> forall k :: 0 <= k < |input| ==> IsJsWhitespace(input[k])
    ensures r.Some? ==> r.value == StartRequest(Trim(input), difficulty) && r.value.topic != ""
  {
    var t := Trim(input);
    if t != "" then Some(StartRequest(t, difficulty)) else None
  }

  /** The list the selector shows after the fetch: a non-empty fetched list as it is, the first
      fallback for an empty list, the second for a thrown error. */
  function SelectTopics(outcome: TopicFetch): (r: seq<TopicSuggestion>)
    ensures |r| > 0
    ensures outcome.Fetched? && outcome.topics != [] ==> r == outcome.topics
    ensures outcome.Fetched? && outcome.topics == [] ==> r == EmptyListFallback
    ensures outcome.FetchThrew? ==> r == ErrorFallback
  {
    match outcome
    case Fetched(topics) => if |topics| > 0 then topics else EmptyListFallback
    case FetchThrew => ErrorFallback
  }

  /** The two fallbacks are different four-entry lists. */
  lemma FallbacksDiffer()
    ensures |EmptyListFallback| == 4 && |ErrorFallback| == 4
    ensures EmptyListFallback != ErrorFallback
  {
    assert EmptyListFallback[1] != ErrorFallback[1];
  }

  /** With the real trending-topics request, which never throws, the error fallback is never
      chosen on its own account: an unusable reply gives the empty-list fallback. */
  lemma SelectorOverTrendingRequest(client: string -> ClientCall, parse: string -> Result<seq<TopicSuggestion>, string>)
    ensures var fetched := GenerateTrendingTopics(client, parse);
      SelectTopics(Fetched(fetched)) == if fetched == [] then EmptyListFallback else fetched
  {
  }

  /** The selector's state. */
  class TopicSelector {
    var input: string
    var difficulty: string
    var trendingTopics: seq<TopicSuggestion>
    var isLoadingTopics: bool
    var mounted: bool

    /** The difficulty is one of the four choices; once loading is over there are topics. */
    ghost predicate Valid()
      reads this
    {
      difficulty in Difficulties && (!isLoadingTopics ==> |trendingTopics| > 0)
    }

    /** A freshly mounted selector: empty input, difficulty "Mixed", topics loading. */
    constructor ()
      ensures Valid()
      ensures input == "" && difficulty == MixedDifficulty && trendingTopics == []
      ensures isLoadingTopics && mounted
    {
      input := "";
      difficulty := MixedDifficulty;
      trendingTopics := [];
      isLoadingTopics := true;
      mounted := true;
    }

    /** Typing into the topic field. */
    method TypeInput(text: string)
      modifies this
      ensures input == text
      ensures difficulty == old(difficulty) && trendingTopics == old(trendingTopics)
      ensures isLoadingTopics == old(isLoadingTopics) && mounted == old(mounted)
    {
      input := text;
    }

    /** A difficulty button. */
    method ChooseDifficulty(level: string)
      requires Valid() && level in Difficulties
      modifies this
      ensures Valid() && difficulty == level
      ensures input == old(input) && trendingTopics == old(trendingTopics)
      ensures isLoadingTopics == old(isLoadingTopics) && mounted == old(mounted)
    {
      difficulty := level;
    }

    /** The end of `fetchTopics`: while mounted, store the chosen list and clear the loading
        flag; after unmount, change nothing. */
    method TopicsFetched(outcome: TopicFetch)
      requires Valid()
      modifies this
      ensures Valid()
      ensures input == old(input) && difficulty == old(difficulty) && mounted == old(mounted)
      ensures old(mounted) ==> trendingTopics == SelectTopics(outcome) && !isLoadingTopics
      ensures !old(mounted) ==> trendingTopics == old(trendingTopics) && isLoadingTopics == old(isLoadingTopics)
    {
      if mounted {
        trendingTopics := SelectTopics(outcome);
        isLoadingTopics := false;  // the `finally` block, under the same guard
      }
    }

    /** The effect cleanup. */
    method Unmount()
      modifies this
      ensures !mounted
      ensures input == old(input) && difficulty == old(difficulty)
      ensures trendingTopics == old(trendingTopics) && isLoadingTopics == old(isLoadingTopics)
    {
      mounted := false;
    }

    /** Submitting the form. */
    method Submit() returns (start: Option<StartRequest>)
      ensures start.None? <==> forall k :: 0 <= k < |input| ==> IsJsWhitespace(input[k])
      ensures start.Some? ==> start.value == StartRequest(Trim(input), difficulty)
    {
      start := SubmitTopic(input, difficulty);
    }

    /** Clicking trending topic i: start with its label, untrimmed, and the chosen difficulty. */
    method ClickTopic(i: nat) returns (start: StartRequest)
      requires !isLoadingTopics && i < |trendingTopics|
      ensures start == StartRequest(trendingTopics[i].name, difficulty)
    {
      start := StartRequest(trendingTopics[i].name, difficulty);
    }
  }
}
