/**
 * Word list loading (src/app/actions.ts). The module-level array `words` is
 * the field of a `WordCache` object; the content of public/words.txt is a
 * parameter (`None` when the read fails) and the draw of `Math.random()` is a
 * parameter in [0, 1).
 */
module Actions {
  import opened JsBuiltins
  import Utils

  /** The list returned when the word file cannot be read. */
  const Fallback: seq<string> := ["Error", "Loading", "Words"]

  /** `.filter((word) => word.trim() !== "")`: the lines that do not trim to "", in order
    * and untrimmed. */
  function KeepNonBlank(lines: seq<string>): (kept: seq<string>)
    ensures |kept| <= |lines|
  {
    if lines == [] then []
    else (if Trim(lines[0]) != "" then [lines[0]] else []) + KeepNonBlank(lines[1..])
  }

  /** Every kept line is one of the lines, untrimmed, and does not trim to "". */
  lemma {:induction false} KeepNonBlankSound(lines: seq<string>)
    ensures forall w :: w in KeepNonBlank(lines) ==> w in lines && Trim(w) != ""
  {
    if lines != [] {
      KeepNonBlankSound(lines[1..]);
    }
  }

  /** Filtering a concatenation filters each part: the kept lines keep their order. */
  lemma {:induction false} KeepNonBlankAppend(a: seq<string>, b: seq<string>)
    ensures KeepNonBlank(a + b) == KeepNonBlank(a) + KeepNonBlank(b)
  {
    if a == [] {
      assert a + b == b;
    } else {
      var head := if Trim(a[0]) != "" then [a[0]] else [];
      assert (a + b)[0] == a[0];
      assert (a + b)[1..] == a[1..] + b;
      assert KeepNonBlank(a + b) == head + KeepNonBlank(a[1..] + b);
      KeepNonBlankAppend(a[1..], b);
      assert KeepNonBlank(a) == head + KeepNonBlank(a[1..]);
    }
  }

  /** Every line that does not trim to "" is kept. */
  lemma {:induction false} KeepNonBlankComplete(lines: seq<string>, i: nat)
    requires i < |lines| && Trim(lines[i]) != ""
    ensures lines[i] in KeepNonBlank(lines)
  {
    if i > 0 {
      KeepNonBlankComplete(lines[1..], i - 1);
    }
  }

  /** `fileContent.split("\n").filter((word) => word.trim() !== "")`: every parsed word is a
    * whole line of the file, holding a non-white-space character. */
  function ParseWords(content: string): (words: seq<string>)
    ensures forall w :: w in words ==> w in Split(content, '\n') && '\n' !in w && !IsBlank(w)
  {
    var lines := Split(content, '\n');
    KeepNonBlankSound(lines);
    KeepNonBlank(lines)
  }

  /** A character other than the separator that occurs in a join occurs in one of its parts. */
  lemma {:induction false} JoinMembership(parts: seq<string>, sep: char, k: nat)
    requires k < |Join(parts, sep)| && Join(parts, sep)[k] != sep
    ensures exists i :: 0 <= i < |parts| && Join(parts, sep)[k] in parts[i]
  {
    var c := Join(parts, sep)[k];
    if |parts| == 1 {
      assert c in parts[0];
    } else {
      var rest := Join(parts[1..], sep);
      assert Join(parts, sep) == parts[0] + [sep] + rest;
      if k < |parts[0]| {
        assert c == parts[0][k];
        assert c in parts[0];
      } else {
        assert k > |parts[0]|;
        assert c == rest[k - |parts[0]| - 1];
        JoinMembership(parts[1..], sep, k - |parts[0]| - 1);
        var i :| 0 <= i < |parts[1..]| && c in parts[1..][i];
        assert c in parts[i + 1];
      }
    }
  }

  /** Nothing is kept of lines that are all blank. */
  lemma {:induction false} KeepNoBlank(lines: seq<string>)
    requires forall w :: w in lines ==> IsBlank(w)
    ensures KeepNonBlank(lines) == []
  {
    if lines != [] {
      assert lines[0] in lines;
      KeepNoBlank(lines[1..]);
    }
  }

  /** Every line of a blank file is blank. */
  lemma BlankLines(content: string)
    requires IsBlank(content)
    ensures forall w :: w in Split(content, '\n') ==> IsBlank(w)
  {
  }

  /** The file yields no word exactly when every character of it is white space. */
  lemma ParseWordsEmptyIffBlank(content: string)
    ensures ParseWords(content) == [] <==> IsBlank(content)
  {
    var lines := Split(content, '\n');
    if IsBlank(content) {
      BlankLines(content);
      KeepNoBlank(lines);
    } else {
      var k :| 0 <= k < |content| && !IsWhiteSpace(content[k]);
      JoinSplit(content, '\n');
      JoinMembership(lines, '\n', k);
      var i :| 0 <= i < |lines| && content[k] in lines[i];
      assert !IsBlank(lines[i]);
      KeepNonBlankComplete(lines, i);
    }
  }

  /** The list `loadWords` resolves to, given the cache before the call and the outcome of
    * reading the file. */
  function LoadedList(cached: seq<string>, file: Option<string>): (list: seq<string>)
    ensures list == [] <==> |cached| == 0 && file.Some? && IsBlank(file.value)
  {
    if |cached| > 0 then cached
    else if file.Some? then ParseWordsEmptyIffBlank(file.value); ParseWords(file.value)
    else Fallback
  }

  /** No word that `loadWords` resolves to is blank, when the cache holds none. */
  lemma LoadedListNotBlank(cached: seq<string>, file: Option<string>)
    requires forall w :: w in cached ==> !IsBlank(w)
    ensures forall w :: w in LoadedList(cached, file) ==> !IsBlank(w)
  {
    if |cached| == 0 && file.None? {
        assert !IsWhiteSpace(Fallback[0][0]) && !IsWhiteSpace(Fallback[1][0])
            && !IsWhiteSpace(Fallback[2][0]);
    }
  }

  /** `wordList[Math.floor(Math.random() * wordList.length)]`: an element of a non-empty
    * list, and `undefined` (None) for the empty one. */
  function PickWord(list: seq<string>, draw: real): (word: Option<string>)
    requires 0.0 <= draw < 1.0
    ensures word.Some? <==> |list| > 0
    ensures word.Some? ==> word.value in list
  {
    var index := Utils.FloorScale(draw, |list|);
    if index < |list| then Some(list[index]) else None
  }

  /** The module state of actions.ts: the cached word list. */
  class WordCache {
    var words: seq<string>
    /** How many times the word file has been read. */
    ghost var fileReads: nat

    ghost predicate Valid()
      reads this
    {
      forall w :: w in words ==> !IsBlank(w)
    }

    constructor ()
      ensures Valid() && words == [] && fileReads == 0
    {
      words := [];
      fileReads := 0;
    }

    /** `loadWords`: the cached list when there is one, without reading the file; otherwise
      * the parsed file, which becomes the cache, or the fallback list when the read fails,
      * which leaves the cache empty for a later retry. */
    method LoadWords(file: Option<string>) returns (list: seq<string>)
      requires Valid()
      modifies this
      ensures Valid()
      ensures list == LoadedList(old(words), file)
      ensures forall w :: w in list ==> !IsBlank(w)
      ensures |old(words)| > 0 ==> words == old(words) && fileReads == old(fileReads)
      ensures |old(words)| == 0 ==> fileReads == old(fileReads) + 1
      ensures |old(words)| == 0 && file.Some? ==> words == list
      ensures file.None? ==> words == old(words)
    {
      LoadedListNotBlank(words, file);
      if |words| > 0 {
        return words;
      }
      fileReads := fileReads + 1;
      match file
      case Some(content) =>
        words := ParseWords(content);
        list := words;
      case None =>
        list := Fallback;
    }

    /** `getRandomWord`: load the list, then pick the element at the scaled draw. */
    method GetRandomWord(file: Option<string>, draw: real) returns (word: Option<string>)
      requires Valid()
      requires 0.0 <= draw < 1.0
      modifies this
      ensures Valid()
      ensures word == PickWord(LoadedList(old(words), file), draw)
      ensures word.Some? ==> !IsBlank(word.value)
      ensures |old(words)| > 0 ==> words == old(words) && fileReads == old(fileReads)
      ensures |old(words)| == 0 ==> fileReads == old(fileReads) + 1
      ensures |old(words)| == 0 && file.Some? ==> words == ParseWords(file.value)
      ensures file.None? ==> words == old(words)
    {
      var list := LoadWords(file);
      word := PickWord(list, draw);
    }
  }
}
