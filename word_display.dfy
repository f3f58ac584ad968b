/**
 * The word display component (src/components/word-display.tsx): the styles
 * derived for a word, the component state `wordState`/`isRefreshing`, and the
 * events that drive it — a click on the refresh button, the 500 ms fade
 * timeout, and the arrival of the word that `fetchNewWord` requested.
 *
 * The browser is reduced to its inputs: the colour `getComputedStyle` reports
 * for the probe element is a parameter `bgColor`, the font catalog is the
 * `fonts` constant of the component, and the sine is `sine`. React's effects
 * are run where React would run them: after an event whose state change is
 * one of the effect's dependencies.
 */
module WordDisplay {
  import opened JsBuiltins
  import opened Utils

  // ---------------------------------------------------------------------------
  // Style derivation (`updateStyles`, lines 45-79)
  // ---------------------------------------------------------------------------

  /** The four fields `updateStyles` writes. */
  datatype Style = Style(gradientColors: Gradient, fontFamily: string, textColor: string,
                         rotation: real)

  /** The font family shown for a catalog entry: its first '+' becomes a space. */
  function DisplayFontName(entry: string): (name: string)
    ensures |name| == |entry|
    ensures '+' !in entry ==> name == entry
    ensures '+' in entry ==> ' ' in name
  {
    var name := ReplaceFirst(entry, '+', ' ');
    assert '+' in entry ==> name[IndexOf(entry, '+')] == ' ';
    name
  }

  /** The `family=` parameter of the Google Fonts stylesheet URL: the first space becomes '+'. */
  function FontUrlFamily(fontFamily: string): (family: string)
    ensures |family| == |fontFamily|
    ensures ' ' !in fontFamily ==> family == fontFamily
    ensures ' ' in fontFamily ==> '+' in family
  {
    var family := ReplaceFirst(fontFamily, ' ', '+');
    assert ' ' in fontFamily ==> family[IndexOf(fontFamily, ' ')] == '+';
    family
  }

  /** For a catalog entry without spaces the stylesheet URL names the entry itself. */
  lemma FontUrlNamesEntry(entry: string)
    requires ' ' !in entry
    ensures FontUrlFamily(DisplayFontName(entry)) == entry
  {
    ReplaceFirstRoundTrip(entry, '+', ' ');
  }

  /** `seededRandom(word + "rotation") * 10 - 5`, in degrees. */
  function Rotation(word: string, sine: int -> real): (degrees: real)
    ensures -5.0 <= degrees < 5.0
  {
    Rand(word + "rotation", sine) * 10.0 - 5.0
  }

  /** The styles `updateStyles(word)` computes when the probe element reports `bgColor`. */
  function DeriveStyle(word: string, bgColor: string, fonts: seq<string>, sine: int -> real)
    : (style: Style)
    requires |fonts| > 0
    ensures 0 <= style.gradientColors.angle < 360
    ensures style.textColor == "black" || style.textColor == "white"
    ensures -5.0 <= style.rotation < 5.0
  {
    Style(GenerateGradientColors(word, sine),
          DisplayFontName(GetRandomItem(fonts, word, sine)),
          GetContrastColor(bgColor),
          Rotation(word, sine))
  }

  /** When no catalog entry holds a space, the font loaded for a word is a catalog entry. */
  lemma DerivedFontInCatalog(word: string, bgColor: string, fonts: seq<string>,
                             sine: int -> real)
    requires |fonts| > 0
    requires forall f :: f in fonts ==> ' ' !in f
    ensures FontUrlFamily(DeriveStyle(word, bgColor, fonts, sine).fontFamily) in fonts
  {
    FontUrlNamesEntry(GetRandomItem(fonts, word, sine));
  }

  // ---------------------------------------------------------------------------
  // Component state (`WordState`, lines 15-22)
  // ---------------------------------------------------------------------------

  datatype WordState = WordState(word: string, gradientColors: Gradient, fontFamily: string,
                                 textColor: string, rotation: real, isVisible: bool)

  /** The style fields of a state. */
  function StyleOf(state: WordState): Style {
    Style(state.gradientColors, state.fontFamily, state.textColor, state.rotation)
  }

  /** `setWordState((prev) => ({...prev, gradientColors, fontFamily, textColor, rotation}))`. */
  function ApplyStyle(prev: WordState, style: Style): (next: WordState)
    ensures next.word == prev.word && next.isVisible == prev.isVisible
    ensures StyleOf(next) == style
  {
    prev.(gradientColors := style.gradientColors, fontFamily := style.fontFamily,
          textColor := style.textColor, rotation := style.rotation)
  }

  /** A style update keeps nothing of the previous style: the last one applied wins. */
  lemma ApplyStyleLastWins(prev: WordState, first: Style, second: Style)
    ensures ApplyStyle(ApplyStyle(prev, first), second) == ApplyStyle(prev, second)
    ensures ApplyStyle(prev, StyleOf(prev)) == prev
  {
  }

  /** `initialWord || searchParams.get("word") || ""`. */
  function InitialWord(initialWord: Option<string>, queryWord: Option<string>): (word: string)
    ensures Truthy(initialWord) ==> word == initialWord.value
    ensures !Truthy(initialWord) && Truthy(queryWord) ==> word == queryWord.value
    ensures word == "" <==> !Truthy(initialWord) && !Truthy(queryWord)
  {
    Or(initialWord, Or(queryWord, ""))
  }

  /** The state `useState` starts from (lines 33-40). */
  function InitialState(initialWord: Option<string>, queryWord: Option<string>): (state: WordState)
    ensures state.isVisible
    ensures state.word == InitialWord(initialWord, queryWord)
    ensures state.word == "" <==> !Truthy(initialWord) && !Truthy(queryWord)
  {
    WordState(InitialWord(initialWord, queryWord), Gradient("#000", "#000", 0), "", "black", 0.0,
              true)
  }

  /** The transparent text colour `fetchNewWord` sets before the new styles. */
  const Transparent: string := "rgba(0,0,0,0)"

  /** `setWordState((prev) => ({...prev, word: newWord, isVisible: true, textColor: ...}))`. */
  function Arrived(prev: WordState, newWord: string): (next: WordState)
    ensures next.word == newWord && next.isVisible
    ensures StyleOf(next) == StyleOf(prev).(textColor := Transparent)
  {
    prev.(word := newWord, isVisible := true, textColor := Transparent)
  }

  /** The fade effect (lines 111-120) runs again only when `isVisible` or `isRefreshing`
    * changed: its cleanup clears the pending timeout, and it schedules a new one exactly
    * when the word is faded out and a refresh is under way. */
  function FadeTimerAfter(visibleBefore: bool, refreshingBefore: bool, visible: bool,
                          refreshing: bool, scheduled: bool): (r: bool)
    ensures r ==> (!visible && refreshing) || (scheduled && visible == visibleBefore
                                              && refreshing == refreshingBefore)
  {
    if visible != visibleBefore || refreshing != refreshingBefore then !visible && refreshing
    else scheduled
  }

  // ---------------------------------------------------------------------------
  // The component as written
  // ---------------------------------------------------------------------------

  class WordDisplay {
    var wordState: WordState
    var isRefreshing: bool
    /** The fade effect's 500 ms timeout is scheduled. */
    var fadeTimer: bool
    /** Calls of `getRandomWord` started by `fetchNewWord` that have not resolved. */
    ghost var pendingFetches: nat
    const fonts: seq<string>
    const sine: int -> real

    /** The timeout is scheduled exactly while the word is faded out during a refresh. */
    ghost predicate Valid()
      reads this
    {
      |fonts| > 0 && (fadeTimer <==> !wordState.isVisible && isRefreshing)
    }

    /** `disabled={isRefreshing}` on the refresh button: disabled at least while the fade
      * timeout is scheduled. */
    predicate RefreshDisabled()
      reads this
      ensures Valid() && fadeTimer ==> RefreshDisabled()
      ensures Stuck() ==> RefreshDisabled()
    {
      isRefreshing
    }

    /** The refresh button is disabled and nothing scheduled or in flight will enable it. */
    ghost predicate Stuck()
      reads this
    {
      isRefreshing && !fadeTimer && pendingFetches == 0
    }

    /** Mounting: the initial state, then the word effect (lines 102-108): a fetch when the
      * word is empty, the styles of the word otherwise. */
    constructor (initialWord: Option<string>, queryWord: Option<string>, fonts: seq<string>,
                 sine: int -> real, bgColor: string)
      requires |fonts| > 0
      ensures Valid()
      ensures this.fonts == fonts && this.sine == sine
      ensures !isRefreshing && !fadeTimer
      ensures var initial := InitialState(initialWord, queryWord);
              if initial.word == "" then wordState == initial && pendingFetches == 1
              else wordState == ApplyStyle(initial, DeriveStyle(initial.word, bgColor, fonts, sine))
                   && pendingFetches == 0
    {
      this.fonts := fonts;
      this.sine := sine;
      var initial := InitialState(initialWord, queryWord);
      isRefreshing := false;
      fadeTimer := false;
      if initial.word == "" {
        wordState := initial;
        pendingFetches := 1;
      } else {
        wordState := ApplyStyle(initial, DeriveStyle(initial.word, bgColor, fonts, sine));
        pendingFetches := 0;
      }
    }

    /** `updateStyles(word)`: only the four style fields change. */
    method UpdateStyles(word: string, bgColor: string)
      requires Valid()
      modifies this`wordState
      ensures Valid()
      ensures wordState == ApplyStyle(old(wordState), DeriveStyle(word, bgColor, fonts, sine))
    {
      wordState := ApplyStyle(wordState, DeriveStyle(word, bgColor, fonts, sine));
    }

    /** `handleRefresh` (lines 95-99): nothing while a refresh is under way; otherwise start
      * one and fade the word out, which schedules the fade timeout. */
    method Refresh()
      requires Valid()
      modifies this`wordState, this`isRefreshing, this`fadeTimer
      ensures Valid()
      ensures old(RefreshDisabled()) ==> wordState == old(wordState) && isRefreshing
                                         && fadeTimer == old(fadeTimer)
      ensures !old(RefreshDisabled()) ==> wordState == old(wordState).(isVisible := false)
                                          && isRefreshing && fadeTimer
    {
      if isRefreshing {
        return;
      }
      var visibleBefore, refreshingBefore := wordState.isVisible, isRefreshing;
      isRefreshing := true;
      wordState := wordState.(isVisible := false);
      fadeTimer := FadeTimerAfter(visibleBefore, refreshingBefore, wordState.isVisible,
                                  isRefreshing, fadeTimer);
    }

    /** The fade timeout fires (lines 113-116): `fetchNewWord()` starts a fetch without
      * awaiting it, and `setIsRefreshing(false)` runs at once, before the word arrives. */
    method TimerFires()
      requires Valid() && fadeTimer
      modifies this`isRefreshing, this`fadeTimer, this`pendingFetches
      ensures Valid()
      ensures !isRefreshing && !fadeTimer && pendingFetches == old(pendingFetches) + 1
    {
      pendingFetches := pendingFetches + 1;
      var visibleBefore, refreshingBefore := wordState.isVisible, isRefreshing;
      isRefreshing := false;
      fadeTimer := FadeTimerAfter(visibleBefore, refreshingBefore, wordState.isVisible,
                                  isRefreshing, false);
    }

    /** A fetch resolves with `newWord` (lines 83-91): the word is shown with its styles; the
      * fade effect clears any pending timeout; the word effect recomputes the same styles. */
    method FetchResolves(newWord: string, bgColor: string)
      requires Valid() && pendingFetches > 0
      requires newWord != ""
      modifies this`wordState, this`fadeTimer, this`pendingFetches
      ensures Valid()
      ensures wordState == ApplyStyle(Arrived(old(wordState), newWord),
                                      DeriveStyle(newWord, bgColor, fonts, sine))
      ensures pendingFetches == old(pendingFetches) - 1 && !fadeTimer
    {
      pendingFetches := pendingFetches - 1;
      var wordBefore, visibleBefore := wordState.word, wordState.isVisible;
      wordState := Arrived(wordState, newWord);
      fadeTimer := FadeTimerAfter(visibleBefore, isRefreshing, wordState.isVisible,
                                  isRefreshing, fadeTimer);
      UpdateStyles(newWord, bgColor);
      if wordState.word != wordBefore {
        UpdateStyles(wordState.word, bgColor);
      }
    }
  }

  /** A refresh that runs to its end: the new word is shown with its styles and the button
    * is enabled again. */
  method RefreshCycle(d: WordDisplay, newWord: string, bgColor: string)
    requires d.Valid() && !d.isRefreshing && newWord != ""
    modifies d
    ensures d.Valid() && !d.isRefreshing && !d.fadeTimer
    ensures d.wordState == ApplyStyle(Arrived(old(d.wordState), newWord),
                                      DeriveStyle(newWord, bgColor, d.fonts, d.sine))
  {
    d.Refresh();
    d.TimerFires();
    d.FetchResolves(newWord, bgColor);
  }

  /** A second click between the timeout and the arrival of the word: the arrival clears the
    * timeout the second click scheduled, and the button stays disabled for good. */
  method OverlappingRefresh(d: WordDisplay, newWord: string, bgColor: string)
    requires d.Valid() && !d.isRefreshing && d.pendingFetches == 0 && newWord != ""
    modifies d
    ensures d.Valid() && d.Stuck() && d.wordState.isVisible && d.RefreshDisabled()
  {
    d.Refresh();
    d.TimerFires();
    d.Refresh();
    d.FetchResolves(newWord, bgColor);
  }

  /** The overlapping clicks right after mounting with a word. */
  method OverlappingRefreshSticks(initialWord: string, newWord: string, fonts: seq<string>,
                                  sine: int -> real, bgColor: string)
    returns (d: WordDisplay)
    requires initialWord != "" && newWord != "" && |fonts| > 0
    ensures d.Valid() && d.Stuck() && d.wordState.isVisible && d.RefreshDisabled()
  {
    d := new WordDisplay(Some(initialWord), None, fonts, sine, bgColor);
    OverlappingRefresh(d, newWord, bgColor);
  }

  /** A click while a single fetch is on its way and no refresh is under way: the arrival
    * clears the timeout the click scheduled, and the button stays disabled for good. */
  method RefreshDuringFetch(d: WordDisplay, newWord: string, bgColor: string)
    requires d.Valid() && !d.isRefreshing && d.pendingFetches == 1 && newWord != ""
    modifies d
    ensures d.Valid() && d.Stuck() && d.wordState.isVisible && d.RefreshDisabled()
  {
    d.Refresh();
    d.FetchResolves(newWord, bgColor);
  }

  /** A click while the first word is still on its way, for a component mounted without a
    * word (the page always passes one when the word file holds a word). */
  method RefreshDuringFirstFetchSticks(newWord: string, fonts: seq<string>, sine: int -> real,
                                       bgColor: string)
    returns (d: WordDisplay)
    requires newWord != "" && |fonts| > 0
    ensures d.Valid() && d.Stuck() && d.wordState.isVisible && d.RefreshDisabled()
  {
    d := new WordDisplay(None, None, fonts, sine, bgColor);
    RefreshDuringFetch(d, newWord, bgColor);
  }

  // ---------------------------------------------------------------------------
  // The component with the refresh guard cleared when the word arrives
  // ---------------------------------------------------------------------------

  /** The same component with `setIsRefreshing(false)` moved into `fetchNewWord`, after the
    * word has arrived; the timeout only starts the fetch. */
  class FixedWordDisplay {
    var wordState: WordState
    var isRefreshing: bool
    var fadeTimer: bool
    ghost var pendingFetches: nat
    const fonts: seq<string>
    const sine: int -> real

    /** A scheduled timeout belongs to a faded-out refresh, and a refresh always has a
      * scheduled timeout or a fetch in flight that will end it. */
    ghost predicate Valid()
      reads this
    {
      && |fonts| > 0
      && (fadeTimer ==> !wordState.isVisible && isRefreshing)
      && (isRefreshing ==> fadeTimer || pendingFetches > 0)
    }

    /** `disabled={isRefreshing}`: disabled at least while the fade timeout is scheduled. */
    predicate RefreshDisabled()
      reads this
      ensures Valid() && fadeTimer ==> RefreshDisabled()
      ensures Stuck() ==> RefreshDisabled()
    {
      isRefreshing
    }

    ghost predicate Stuck()
      reads this
    {
      isRefreshing && !fadeTimer && pendingFetches == 0
    }

    constructor (initialWord: Option<string>, queryWord: Option<string>, fonts: seq<string>,
                 sine: int -> real, bgColor: string)
      requires |fonts| > 0
      ensures Valid()
      ensures this.fonts == fonts && this.sine == sine
      ensures !isRefreshing && !fadeTimer
      ensures var initial := InitialState(initialWord, queryWord);
              if initial.word == "" then wordState == initial && pendingFetches == 1
              else wordState == ApplyStyle(initial, DeriveStyle(initial.word, bgColor, fonts, sine))
                   && pendingFetches == 0
    {
      this.fonts := fonts;
      this.sine := sine;
      var initial := InitialState(initialWord, queryWord);
      isRefreshing := false;
      fadeTimer := false;
      if initial.word == "" {
        wordState := initial;
        pendingFetches := 1;
      } else {
        wordState := ApplyStyle(initial, DeriveStyle(initial.word, bgColor, fonts, sine));
        pendingFetches := 0;
      }
    }

    method UpdateStyles(word: string, bgColor: string)
      requires Valid()
      modifies this`wordState
      ensures Valid()
      ensures wordState == ApplyStyle(old(wordState), DeriveStyle(word, bgColor, fonts, sine))
    {
      wordState := ApplyStyle(wordState, DeriveStyle(word, bgColor, fonts, sine));
    }

    method Refresh()
      requires Valid()
      modifies this`wordState, this`isRefreshing, this`fadeTimer
      ensures Valid()
      ensures old(RefreshDisabled()) ==> wordState == old(wordState) && isRefreshing
                                         && fadeTimer == old(fadeTimer)
      ensures !old(RefreshDisabled()) ==> wordState == old(wordState).(isVisible := false)
                                          && isRefreshing && fadeTimer
    {
      if isRefreshing {
        return;
      }
      var visibleBefore, refreshingBefore := wordState.isVisible, isRefreshing;
      isRefreshing := true;
      wordState := wordState.(isVisible := false);
      fadeTimer := FadeTimerAfter(visibleBefore, refreshingBefore, wordState.isVisible,
                                  isRefreshing, fadeTimer);
    }

    /** The timeout fires and starts the fetch; the refresh stays under way. */
    method TimerFires()
      requires Valid() && fadeTimer
      modifies this`fadeTimer, this`pendingFetches
      ensures Valid()
      ensures isRefreshing && !fadeTimer && pendingFetches == old(pendingFetches) + 1
    {
      pendingFetches := pendingFetches + 1;
      fadeTimer := false;
    }

    /** The fetch resolves: the word is shown with its styles and the refresh is over. */
    method FetchResolves(newWord: string, bgColor: string)
      requires Valid() && pendingFetches > 0
      requires newWord != ""
      modifies this`wordState, this`isRefreshing, this`fadeTimer, this`pendingFetches
      ensures Valid()
      ensures wordState == ApplyStyle(Arrived(old(wordState), newWord),
                                      DeriveStyle(newWord, bgColor, fonts, sine))
      ensures !isRefreshing && !fadeTimer && pendingFetches == old(pendingFetches) - 1
    {
      pendingFetches := pendingFetches - 1;
      var wordBefore, visibleBefore, refreshingBefore := wordState.word, wordState.isVisible,
                                                         isRefreshing;
      wordState := Arrived(wordState, newWord);
      isRefreshing := false;
      fadeTimer := FadeTimerAfter(visibleBefore, refreshingBefore, wordState.isVisible,
                                  isRefreshing, fadeTimer);
      UpdateStyles(newWord, bgColor);
      if wordState.word != wordBefore {
        UpdateStyles(wordState.word, bgColor);
      }
    }
  }

  /** In the corrected component the refresh button is never disabled for good. */
  lemma FixedNeverStuck(d: FixedWordDisplay)
    requires d.Valid()
    ensures !d.Stuck()
  {
  }

  /** The overlapping clicks that leave the component as written stuck: the button is
    * enabled again once the word has arrived. */
  method FixedOverlappingRefresh(d: FixedWordDisplay, newWord: string, bgColor: string)
    requires d.Valid() && !d.isRefreshing && d.pendingFetches == 0 && newWord != ""
    modifies d
    ensures d.Valid() && !d.RefreshDisabled() && d.wordState.isVisible
    ensures d.wordState.word == newWord
  {
    d.Refresh();
    d.TimerFires();
    d.Refresh();
    d.FetchResolves(newWord, bgColor);
  }

  method FixedOverlappingRefreshRecovers(initialWord: string, newWord: string,
                                         fonts: seq<string>, sine: int -> real, bgColor: string)
    returns (d: FixedWordDisplay)
    requires initialWord != "" && newWord != "" && |fonts| > 0
    ensures d.Valid() && !d.RefreshDisabled() && d.wordState.isVisible
    ensures d.wordState.word == newWord
  {
    d := new FixedWordDisplay(Some(initialWord), None, fonts, sine, bgColor);
    FixedOverlappingRefresh(d, newWord, bgColor);
  }

  /** The click during a fetch: the arrival of the word ends the refresh. */
  method FixedRefreshDuringFetch(d: FixedWordDisplay, newWord: string, bgColor: string)
    requires d.Valid() && !d.isRefreshing && d.pendingFetches == 1 && newWord != ""
    modifies d
    ensures d.Valid() && !d.RefreshDisabled() && d.wordState.isVisible
    ensures d.wordState.word == newWord
  {
    d.Refresh();
    d.FetchResolves(newWord, bgColor);
  }

  method FixedRefreshDuringFirstFetchRecovers(newWord: string, fonts: seq<string>,
                                              sine: int -> real, bgColor: string)
    returns (d: FixedWordDisplay)
    requires newWord != "" && |fonts| > 0
    ensures d.Valid() && !d.RefreshDisabled() && d.wordState.isVisible
    ensures d.wordState.word == newWord
  {
    d := new FixedWordDisplay(None, None, fonts, sine, bgColor);
    FixedRefreshDuringFetch(d, newWord, bgColor);
  }
}
