/** The seed-phrase import screen (KNImportSeedsViewController): how the typed
    text becomes a word list, when the Next button is enabled, and what
    pressing it does.

    `trim` is `String.trimmed` and `isValid` is `Mnemonic.isValid`; both are
    parameters. */
module ImportSeeds {
  import opened Common

  /** The number of words a seed phrase must have. */
  const NumberWords: nat := 12

  /** `components(separatedBy: " ")`: the pieces between single spaces, empty
      pieces included. */
  function Split(s: string): (pieces: seq<string>)
    ensures |pieces| >= 1
    ensures forall i :: 0 <= i < |pieces| ==> ' ' !in pieces[i]
    decreases |s|
  {
    if |s| == 0 then [[]]
    else
      var rest := Split(s[1..]);
      if s[0] == ' ' then [[]] + rest
      else [[s[0]] + rest[0]] + rest[1..]
  }

  /** The pieces put back together with single spaces. */
  function Join(pieces: seq<string>): string
    decreases |pieces|
  {
    if |pieces| == 0 then []
    else if |pieces| == 1 then pieces[0]
    else pieces[0] + " " + Join(pieces[1..])
  }

  /** Splitting loses nothing: joining the pieces gives the text back. */
  lemma {:induction false} JoinSplit(s: string)
    ensures Join(Split(s)) == s
    decreases |s|
  {
    if |s| > 0 {
      var rest := Split(s[1..]);
      JoinSplit(s[1..]);
      if s[0] == ' ' {
        assert Split(s) == [[]] + rest;
        assert Join(Split(s)) == [] + " " + Join(rest);
      } else {
        assert Split(s) == [[s[0]] + rest[0]] + rest[1..];
        if |rest| == 1 {
          assert Join(Split(s)) == [s[0]] + rest[0];
        } else {
          assert Join(rest) == rest[0] + " " + Join(rest[1..]);
          assert Join(Split(s)) == ([s[0]] + rest[0]) + " " + Join(rest[1..]);
        }
      }
    }
  }

  /** Splitting text joined from space-free pieces gives the pieces back. */
  lemma {:induction false} SplitJoin(pieces: seq<string>)
    requires |pieces| >= 1
    requires forall i :: 0 <= i < |pieces| ==> ' ' !in pieces[i]
    ensures Split(Join(pieces)) == pieces
    decreases |pieces|
  {
    if |pieces| == 1 {
      SplitWithoutSpaces(pieces[0]);
    } else {
      SplitJoin(pieces[1..]);
      SplitAppend(pieces[0], Join(pieces[1..]));
      SplitWithoutSpaces(pieces[0]);
      assert pieces == [pieces[0]] + pieces[1..];
    }
  }

  lemma {:induction false} SplitWithoutSpaces(s: string)
    requires ' ' !in s
    ensures Split(s) == [s]
    decreases |s|
  {
    if |s| > 0 {
      assert ' ' !in s[1..] by { assert forall c :: c in s[1..] ==> c in s; }
      SplitWithoutSpaces(s[1..]);
      assert s == [s[0]] + s[1..];
    }
  }

  /** Split, one leading character at a time. */
  lemma SplitCons(c: char, t: string)
    ensures c == ' ' ==> Split([c] + t) == [[]] + Split(t)
    ensures c != ' ' ==> Split([c] + t) == [[c] + Split(t)[0]] + Split(t)[1..]
  {
    assert ([c] + t)[0] == c;
    assert ([c] + t)[1..] == t;
  }

  /** A space splits the text into the pieces of each side. */
  lemma {:induction false} SplitAppend(a: string, b: string)
    ensures Split(a + " " + b) == Split(a) + Split(b)
    decreases |a|
  {
    if |a| == 0 {
      assert a + " " + b == [' '] + b;
      SplitCons(' ', b);
    } else {
      var c := a[0];
      var t := a[1..];
      assert a == [c] + t;
      assert a + " " + b == [c] + (t + " " + b);
      SplitAppend(t, b);
      SplitCons(c, t + " " + b);
      SplitCons(c, t);
      var rt := Split(t);
      if c != ' ' {
        assert (rt + Split(b))[0] == rt[0];
        assert (rt + Split(b))[1..] == rt[1..] + Split(b);
      }
    }
  }

  /** The text without its spaces (`replacingOccurrences(of: " ", with: "")`). */
  function RemoveSpaces(s: string): (r: string)
    ensures ' ' !in r
    ensures ' ' !in s ==> r == s
    decreases |s|
  {
    if |s| == 0 then []
    else if s[0] == ' ' then RemoveSpaces(s[1..])
    else
      assert ' ' !in s ==> ' ' !in s[1..] by { assert forall c :: c in s[1..] ==> c in s; }
      assert s == [s[0]] + s[1..];
      [s[0]] + RemoveSpaces(s[1..])
  }

  /** Each piece trimmed, and the pieces with nothing but spaces dropped. */
  function KeepWords(pieces: seq<string>, trim: string -> string): (words: seq<string>)
    ensures |words| <= |pieces|
    ensures forall i :: 0 <= i < |words| ==> RemoveSpaces(words[i]) != []
    decreases |pieces|
  {
    if |pieces| == 0 then []
    else
      var w := trim(pieces[0]);
      if RemoveSpaces(w) == [] then KeepWords(pieces[1..], trim)
      else [w] + KeepWords(pieces[1..], trim)
  }

  lemma {:induction false} KeepWordsAppend(p: seq<string>, q: seq<string>, trim: string -> string)
    ensures KeepWords(p + q, trim) == KeepWords(p, trim) + KeepWords(q, trim)
    decreases |p|
  {
    if |p| == 0 {
      assert p + q == q;
    } else {
      assert (p + q)[0] == p[0];
      assert (p + q)[1..] == p[1..] + q;
      KeepWordsAppend(p[1..], q, trim);
      var w := trim(p[0]);
      if RemoveSpaces(w) != [] {
        assert KeepWords(p + q, trim) == [w] + KeepWords(p[1..] + q, trim);
        assert KeepWords(p, trim) == [w] + KeepWords(p[1..], trim);
      }
    }
  }

  /** The word list of the text in the seeds field. */
  function Words(text: string, trim: string -> string): seq<string> {
    KeepWords(Split(trim(text)), trim)
  }

  /** Doubling a space between two parts of the text leaves the words as they
      were, when trimming the empty string leaves nothing. */
  lemma ExtraSpaceKeepsWords(a: string, b: string, trim: string -> string)
    requires RemoveSpaces(trim([])) == []
    ensures KeepWords(Split(a + " " + " " + b), trim) == KeepWords(Split(a + " " + b), trim)
  {
    SplitAppend(a, b);
    assert a + " " + " " + b == a + " " + (" " + b);
    SplitAppend(a, " " + b);
    assert " " + b == [] + " " + b;
    SplitAppend([], b);
    assert Split([]) == [[]];
    KeepWordsAppend(Split(a), Split(" " + b), trim);
    KeepWordsAppend(Split(a), Split(b), trim);
    KeepWordsAppend([[]], Split(b), trim);
    assert KeepWords([[]], trim) == [];
  }

  /** updateNextButton: enabled exactly when the field has text with 12 words. */
  function NextEnabled(text: Option<string>, trim: string -> string): (enabled: bool)
    ensures enabled <==> text.Some? && |Words(text.value, trim)| == NumberWords
  {
    text.Some? && |Words(text.value, trim)| == NumberWords
  }

  /** What pressing Next does: ask for the field, reject an invalid phrase,
      reject a phrase without 12 words, or hand the words and the wallet name
      to the delegate. */
  datatype NextOutcome = FieldRequired | InvalidSeeds | WrongWordCount | ImportWords(words: seq<string>, name: Option<string>)

  /** nextButtonPressed. The phrase is checked for validity before its words
      are counted. */
  function NextPressed(text: Option<string>, name: Option<string>, trim: string -> string, isValid: string -> bool)
    : (o: NextOutcome)
    ensures text.None? <==> o == FieldRequired
    ensures text.Some? && !isValid(trim(text.value)) <==> o == InvalidSeeds
    ensures text.Some? && isValid(trim(text.value)) && |Words(text.value, trim)| != NumberWords <==> o == WrongWordCount
    ensures o.ImportWords? <==> text.Some? && isValid(trim(text.value)) && |Words(text.value, trim)| == NumberWords
    ensures o.ImportWords? ==> o.words == Words(text.value, trim) && o.name == name
  {
    match text
    case None => FieldRequired
    case Some(t) =>
      if !isValid(trim(t)) then InvalidSeeds
      else
        var words := Words(t, trim);
        if |words| == NumberWords then ImportWords(words, name) else WrongWordCount
  }

  /** The delegate only ever receives 12 words, none of them blank, and only
      when the button was enabled. */
  lemma ImportedWordsAreTwelve(text: Option<string>, name: Option<string>, trim: string -> string, isValid: string -> bool)
    requires NextPressed(text, name, trim, isValid).ImportWords?
    ensures var ws := NextPressed(text, name, trim, isValid).words;
            |ws| == NumberWords && (forall i :: 0 <= i < |ws| ==> RemoveSpaces(ws[i]) != [])
    ensures NextEnabled(text, trim)
  {
  }

  /** The screen: the field's text, the word count label, and the button. */
  datatype SeedsScreen = SeedsScreen(text: string, wordCount: nat, nextEnabled: bool)

  /** The label and the button agree with the text. */
  predicate Consistent(s: SeedsScreen, trim: string -> string) {
    s.wordCount == |Words(s.text, trim)| && s.nextEnabled == NextEnabled(Some(s.text), trim)
  }

  /** textField(_:shouldChangeCharactersIn:) for the seeds field, given the
      resulting text. */
  function EditSeeds(s: SeedsScreen, text: string, trim: string -> string): (r: SeedsScreen)
    ensures r.text == text && Consistent(r, trim)
  {
    SeedsScreen(text, |Words(text, trim)|, NextEnabled(Some(text), trim))
  }

  /** textFieldShouldClear for the seeds field (also resetUIs): the text is
      emptied, the label says 0 and the button is recomputed. */
  function ClearSeeds(s: SeedsScreen, trim: string -> string): (r: SeedsScreen)
    ensures r.text == [] && r.wordCount == 0
    ensures r.nextEnabled == NextEnabled(Some([]), trim)
  {
    SeedsScreen("", 0, NextEnabled(Some(""), trim))
  }

  /** When trimming the empty text gives the empty text, a cleared field has
      no words, the button is disabled and the screen is consistent. */
  lemma ClearedSeedsDisableNext(s: SeedsScreen, trim: string -> string)
    requires trim([]) == []
    ensures !ClearSeeds(s, trim).nextEnabled
    ensures Consistent(ClearSeeds(s, trim), trim)
  {
    assert Split([]) == [[]];
    assert RemoveSpaces([]) == [];
    assert KeepWords([[]], trim) == [];
    assert Words([], trim) == [];
  }
}
