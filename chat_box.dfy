/** The chat box of a room: the profanity filter, sending a typed message,
    sending a quick message, and adding an emoji to the input. */
module ChatBox {
  import opened Common
  import opened GameTypes
  import GameContext

  // ---------------------------------------------------------------------------
  // Case-insensitive matching

  /** ASCII lower case. A JavaScript regular expression with the `i` flag
      and no `u` flag never lets a non-ASCII character match an ASCII one,
      so for the all-ASCII filter words this is exactly its case folding. */
  function Lower(c: char): char {
    if 'A' <= c <= 'Z' then (c as int + 32) as char else c
  }

  /** A filter word: lower-case ASCII letters, longer than the mask. */
  predicate IsLowerWord(w: string) {
    |w| > 3 && forall k :: 0 <= k < |w| ==> 'a' <= w[k] <= 'z'
  }

  /** `w` occurs in `s` at position `i`, ignoring letter case. */
  predicate MatchesAt(s: string, i: int, w: string) {
    0 <= i && i + |w| <= |s| && forall k :: 0 <= k < |w| ==> Lower(s[i + k]) == w[k]
  }

  ghost predicate Occurs(s: string, w: string) {
    exists i :: MatchesAt(s, i, w)
  }

  const Mask: string := "***"

  /** `s.replace(new RegExp(w, 'gi'), '***')`: scanning left to right, each
      occurrence not overlapping an earlier replaced one becomes the mask. */
  function MaskWord(s: string, w: string): string
    requires w != []
    decreases |s|
  {
    if |s| < |w| then s
    else if MatchesAt(s, 0, w) then Mask + MaskWord(s[|w|..], w)
    else [s[0]] + MaskWord(s[1..], w)
  }

  /** A text in which the word does not occur is left as it is. */
  lemma {:induction false} MaskWordClean(s: string, w: string)
    requires w != []
    ensures !Occurs(s, w) ==> MaskWord(s, w) == s
  {
    if |s| >= |w| && !Occurs(s, w) {
      assert !MatchesAt(s, 0, w);
      if Occurs(s[1..], w) {
        var i :| MatchesAt(s[1..], i, w);
        assert MatchesAt(s, i + 1, w);
      }
      MaskWordClean(s[1..], w);
    }
  }

  /** Masking a word longer than the mask never lengthens the text, and
      shortens it whenever the word occurs. */
  lemma {:induction false} MaskWordShrinks(s: string, w: string)
    requires |w| > 3
    ensures |MaskWord(s, w)| <= |s|
    ensures Occurs(s, w) ==> |MaskWord(s, w)| < |s|
  {
    if |s| >= |w| {
      if MatchesAt(s, 0, w) {
        MaskWordShrinks(s[|w|..], w);
      } else {
        MaskWordShrinks(s[1..], w);
        if Occurs(s, w) {
          var i :| MatchesAt(s, i, w);
          assert MatchesAt(s[1..], i - 1, w);
        }
      }
    }
  }

  /** No mask character in `s[i..i + m]`. */
  predicate StarFree(s: string, i: int, m: int)
    requires 0 <= i && 0 <= m && i + m <= |s|
  {
    forall k :: i <= k < i + m ==> s[k] != '*'
  }

  /** Up to the first mask character, the masked text is the text itself. */
  lemma {:induction false} MaskWordPrefix(t: string, w: string, m: nat)
    requires w != [] && m <= |MaskWord(t, w)|
    ensures StarFree(MaskWord(t, w), 0, m) ==> m <= |t| && MaskWord(t, w)[..m] == t[..m]
  {
    var r := MaskWord(t, w);
    if |t| >= |w| && m > 0 {
      if MatchesAt(t, 0, w) {
        assert r[0] == '*';
      } else {
        var r' := MaskWord(t[1..], w);
        assert r == [t[0]] + r';
        MaskWordPrefix(t[1..], w, m - 1);
        if StarFree(r, 0, m) {
          forall k | 0 <= k < m - 1 ensures r'[k] != '*' {
            assert r[k + 1] == r'[k];
          }
          assert r[..m] == [t[0]] + r'[..m - 1];
          assert t[..m] == [t[0]] + t[1..][..m - 1];
        }
      }
    }
  }

  /** Every stretch of the masked text without a mask character is a
      stretch of the original text. */
  lemma {:induction false} MaskWordWindow(t: string, w: string, i: nat, m: nat) returns (j: nat)
    requires w != [] && i + m <= |MaskWord(t, w)|
    ensures StarFree(MaskWord(t, w), i, m) ==> j + m <= |t| && t[j..j + m] == MaskWord(t, w)[i..i + m]
    decreases |t|, 1
  {
    if |t| < |w| {
      j := i;
    } else if m == 0 {
      j := 0;
    } else if MatchesAt(t, 0, w) {
      j := WindowAfterMask(t, w, i, m);
    } else if i >= 1 {
      j := WindowAfterKept(t, w, i, m);
    } else {
      MaskWordPrefix(t, w, m);
      j := 0;
    }
  }

  /** The window case where the text starts with the word: a window free
      of mask characters lies past the mask, in the masked rest. */
  lemma {:induction false} WindowAfterMask(t: string, w: string, i: nat, m: nat) returns (j: nat)
    requires w != [] && |t| >= |w| && MatchesAt(t, 0, w) && m > 0 && i + m <= |MaskWord(t, w)|
    ensures StarFree(MaskWord(t, w), i, m) ==> j + m <= |t| && t[j..j + m] == MaskWord(t, w)[i..i + m]
    decreases |t|, 0
  {
    var r := MaskWord(t, w);
    var r' := MaskWord(t[|w|..], w);
    assert r == Mask + r';
    if i < 3 {
      assert r[i] == '*';
      j := 0;
    } else {
      var j' := MaskWordWindow(t[|w|..], w, i - 3, m);
      j := j' + |w|;
      if StarFree(r, i, m) {
        forall k | i - 3 <= k < i - 3 + m ensures r'[k] != '*' {
          assert r[k + 3] == r'[k];
        }
        assert StarFree(r', i - 3, m);
        assert j' + m <= |t[|w|..]|;
        assert r[i..i + m] == r'[i - 3..i - 3 + m];
        assert t[|w|..][j'..j' + m] == t[j..j + m];
      }
    }
  }

  /** The window case where the first character is kept and the window
      starts after it. */
  lemma {:induction false} WindowAfterKept(t: string, w: string, i: nat, m: nat) returns (j: nat)
    requires w != [] && |t| >= |w| && !MatchesAt(t, 0, w) && i >= 1 && i + m <= |MaskWord(t, w)|
    ensures StarFree(MaskWord(t, w), i, m) ==> j + m <= |t| && t[j..j + m] == MaskWord(t, w)[i..i + m]
    decreases |t|, 0
  {
    var r := MaskWord(t, w);
    var r' := MaskWord(t[1..], w);
    assert r == [t[0]] + r';
    var j' := MaskWordWindow(t[1..], w, i - 1, m);
    j := j' + 1;
    if StarFree(r, i, m) {
      forall k | i - 1 <= k < i - 1 + m ensures r'[k] != '*' {
        assert r[k + 1] == r'[k];
      }
      assert StarFree(r', i - 1, m);
      assert j' + m <= |t[1..]|;
      assert r[i..i + m] == r'[i - 1..i - 1 + m];
      assert t[1..][j'..j' + m] == t[j..j + m];
    }
  }

  /** After masking, the word occurs nowhere in the text, in any letter case. */
  lemma {:induction false} MaskWordRemovesWord(s: string, w: string)
    requires IsLowerWord(w)
    ensures !Occurs(MaskWord(s, w), w)
    decreases |s|
  {
    if |s| < |w| {
    } else if MatchesAt(s, 0, w) {
      MaskWordRemovesWord(s[|w|..], w);
      NoMatchAfterMaskedHead(s, w);
    } else {
      MaskWordRemovesWord(s[1..], w);
      NoMatchAfterKeptHead(s, w);
    }
  }

  /** A text starting with the word: the mask cannot start a match, and the
      rest was masked clean. */
  lemma NoMatchAfterMaskedHead(s: string, w: string)
    requires IsLowerWord(w) && |s| >= |w| && MatchesAt(s, 0, w)
    requires !Occurs(MaskWord(s[|w|..], w), w)
    ensures !Occurs(MaskWord(s, w), w)
  {
    NoMatchBehindMask(MaskWord(s[|w|..], w), w);
  }

  lemma NoMatchBehindMask(r': string, w: string)
    requires IsLowerWord(w) && !Occurs(r', w)
    ensures !Occurs(Mask + r', w)
  {
    var r := Mask + r';
    forall i ensures !MatchesAt(r, i, w) {
      if 0 <= i < 3 && i < |r| {
        assert r[i] == '*' && 'a' <= w[0] <= 'z';
        assert Lower(r[i + 0]) != w[0];
      } else if i >= 3 {
        assert MatchesAt(r, i, w) ==> MatchesAt(r', i - 3, w);
      }
    }
  }

  /** A text not starting with the word: its first character is kept, no
      match starts there, and the rest was masked clean. */
  lemma NoMatchAfterKeptHead(s: string, w: string)
    requires IsLowerWord(w) && |s| >= |w| && !MatchesAt(s, 0, w)
    requires !Occurs(MaskWord(s[1..], w), w)
    ensures !Occurs(MaskWord(s, w), w)
  {
    KeptHeadStartsNoMatch(s, w);
    NoMatchBehindHead(s[0], MaskWord(s[1..], w), w);
  }

  lemma NoMatchBehindHead(c: char, r': string, w: string)
    requires !Occurs(r', w) && !MatchesAt([c] + r', 0, w)
    ensures !Occurs([c] + r', w)
  {
    var r := [c] + r';
    forall i | i >= 1 ensures !MatchesAt(r, i, w) {
      assert MatchesAt(r, i, w) ==> MatchesAt(r', i - 1, w);
    }
  }

  /** Where the text does not start with the word, neither does the masked
      text: a match there would be a match in the text itself. */
  lemma KeptHeadStartsNoMatch(s: string, w: string)
    requires IsLowerWord(w) && |s| >= |w| && !MatchesAt(s, 0, w)
    ensures !MatchesAt(MaskWord(s, w), 0, w)
  {
    var r := MaskWord(s, w);
    if MatchesAt(r, 0, w) {
      forall k | 0 <= k < |w| ensures r[k] != '*' {
        assert Lower(r[k]) == w[k];
      }
      MaskWordPrefix(s, w, |w|);
      forall k | 0 <= k < |w| ensures Lower(s[k]) == w[k] {
        assert s[k] == s[..|w|][k] == r[..|w|][k] == r[k];
      }
      assert MatchesAt(s, 0, w);
    }
  }

  /** Masking one word never makes another filter word appear. */
  lemma MaskWordKeepsAbsent(x: string, w: string, v: string)
    requires w != [] && IsLowerWord(v) && !Occurs(x, v)
    ensures !Occurs(MaskWord(x, w), v)
  {
    var r := MaskWord(x, w);
    forall i ensures !MatchesAt(r, i, v) {
      if 0 <= i && i + |v| <= |r| {
        var j := MaskWordWindow(x, w, i, |v|);
        MatchIsStarFree(r, i, v);
        if StarFree(r, i, |v|) {
          SameWindowSameMatch(x, j, r, i, v);
        }
      }
    }
  }

  /** A match of a lower-case word holds no mask character. */
  lemma MatchIsStarFree(r: string, i: nat, v: string)
    requires IsLowerWord(v) && i + |v| <= |r|
    ensures MatchesAt(r, i, v) ==> StarFree(r, i, |v|)
  {
    forall k | i <= k < i + |v| ensures MatchesAt(r, i, v) ==> r[k] != '*' {
      assert MatchesAt(r, i, v) ==> Lower(r[i + (k - i)]) == v[k - i];
    }
  }

  /** Two equal windows match the same word. */
  lemma SameWindowSameMatch(x: string, j: nat, r: string, i: nat, v: string)
    requires j + |v| <= |x| && i + |v| <= |r| && x[j..j + |v|] == r[i..i + |v|]
    ensures MatchesAt(r, i, v) ==> MatchesAt(x, j, v)
  {
    if MatchesAt(r, i, v) {
      forall k | 0 <= k < |v| ensures Lower(x[j + k]) == v[k] {
        assert x[j + k] == x[j..j + |v|][k] == r[i..i + |v|][k] == r[i + k];
      }
    }
  }

  // ---------------------------------------------------------------------------
  // The filter

  /** The text after masking each word of `ws` in turn. */
  function MaskAll(t: string, ws: seq<string>): string
    requires forall k :: 0 <= k < |ws| ==> IsLowerWord(ws[k])
  {
    if ws == [] then t
    else
      var w := ws[|ws| - 1];
      assert IsLowerWord(w);
      MaskWord(MaskAll(t, ws[..|ws| - 1]), w)
  }

  /** The filter words are lower-case ASCII words longer than the mask. */
  lemma FilterWordsAreLowerWords()
    ensures forall k :: 0 <= k < |PROFANITY_FILTER| ==> IsLowerWord(PROFANITY_FILTER[k])
  {
  }

  /** `filterMessage(text)`: each filter word in turn, in every letter
      case, is replaced by the mask. */
  method FilterMessage(text: string) returns (filtered: string)
    ensures filtered == MaskAll(text, PROFANITY_FILTER)
  {
    FilterWordsAreLowerWords();
    filtered := text;
    var i := 0;
    while i < |PROFANITY_FILTER|
      invariant 0 <= i <= |PROFANITY_FILTER|
      invariant filtered == MaskAll(text, PROFANITY_FILTER[..i])
    {
      assert PROFANITY_FILTER[..i + 1][..i] == PROFANITY_FILTER[..i];
      filtered := MaskWord(filtered, PROFANITY_FILTER[i]);
      i := i + 1;
    }
    assert PROFANITY_FILTER[..i] == PROFANITY_FILTER;
  }

  /** No word of the list survives the filter, in any letter case. */
  lemma {:induction false} MaskAllRemovesAll(t: string, ws: seq<string>)
    requires forall k :: 0 <= k < |ws| ==> IsLowerWord(ws[k])
    ensures forall k :: 0 <= k < |ws| ==> !Occurs(MaskAll(t, ws), ws[k])
  {
    if ws != [] {
      var init := ws[..|ws| - 1];
      var w := ws[|ws| - 1];
      MaskAllRemovesAll(t, init);
      var x := MaskAll(t, init);
      MaskWordRemovesWord(x, w);
      forall k | 0 <= k < |ws| - 1 ensures !Occurs(MaskAll(t, ws), ws[k]) {
        assert ws[k] == init[k];
        MaskWordKeepsAbsent(x, w, ws[k]);
      }
    }
  }

  /** The filter leaves a text unchanged exactly when no word of the list
      occurs in it; otherwise it shortens it. */
  lemma {:induction false} MaskAllUnchanged(t: string, ws: seq<string>)
    requires forall k :: 0 <= k < |ws| ==> IsLowerWord(ws[k])
    ensures |MaskAll(t, ws)| <= |t|
    ensures |MaskAll(t, ws)| == |t| ==> MaskAll(t, ws) == t && forall k :: 0 <= k < |ws| ==> !Occurs(t, ws[k])
    ensures (forall k :: 0 <= k < |ws| ==> !Occurs(t, ws[k])) ==> MaskAll(t, ws) == t
  {
    if ws != [] {
      var init := ws[..|ws| - 1];
      var w := ws[|ws| - 1];
      MaskAllUnchanged(t, init);
      var x := MaskAll(t, init);
      MaskWordShrinks(x, w);
      MaskWordClean(x, w);
      assert forall k :: 0 <= k < |init| ==> init[k] == ws[k];
    }
  }

  /** The flag a sent message carries: the filter changed the text exactly
      when some filter word occurs in it. */
  lemma FilterFlagMeaning(t: string)
    ensures MaskAll(t, PROFANITY_FILTER) != t <==>
      exists k :: 0 <= k < |PROFANITY_FILTER| && Occurs(t, PROFANITY_FILTER[k])
  {
    FilterWordsAreLowerWords();
    MaskAllUnchanged(t, PROFANITY_FILTER);
  }

  // ---------------------------------------------------------------------------
  // The chat box

  /** The messages shown and the text being typed. */
  datatype ChatState = ChatState(messages: seq<ChatMessage>, input: string)

  /** `handleSendMessage()` with the id and time it draws: a blank input or
      no signed-in player changes nothing; otherwise the filtered input is
      appended as a message of the player, flagged when the filter changed
      it, the input is cleared, and the player earns 10 XP. The message
      appended carries no filter word, and its flag says whether the typed
      text held one. */
  method SendMessage(cs: ChatState, gs: GameContext.GameState, id: string, now: int)
    returns (cs': ChatState, gs': GameContext.GameState)
    ensures IsBlank(cs.input) || gs.currentPlayer.None? ==> cs' == cs && gs' == gs
    ensures !IsBlank(cs.input) && gs.currentPlayer.Some? ==> (
      var p := gs.currentPlayer.value;
      var text := MaskAll(cs.input, PROFANITY_FILTER);
      && cs' == ChatState(cs.messages + [ChatMessage(id, p.id, p.name, p.avatar, text, now, Some(text != cs.input))], "")
      && gs' == GameContext.GrantXP(gs, XP_SEND_MESSAGE)
      && (forall k :: 0 <= k < |PROFANITY_FILTER| ==> !Occurs(text, PROFANITY_FILTER[k]))
      && ((text != cs.input) <==> exists k :: 0 <= k < |PROFANITY_FILTER| && Occurs(cs.input, PROFANITY_FILTER[k])))
  {
    TrimEmptyIffBlank(cs.input);
    if Trim(cs.input) == [] || gs.currentPlayer.None? {
      return cs, gs;
    }
    var p := gs.currentPlayer.value;
    var filtered := FilterMessage(cs.input);
    var isFiltered := filtered != cs.input;
    var msg := ChatMessage(id, p.id, p.name, p.avatar, filtered, now, Some(isFiltered));
    cs' := ChatState(cs.messages + [msg], "");
    gs' := GameContext.GrantXP(gs, XP_SEND_MESSAGE);
    FilterWordsAreLowerWords();
    MaskAllRemovesAll(cs.input, PROFANITY_FILTER);
    FilterFlagMeaning(cs.input);
  }

  /** `handleQuickMessage(message)`: with a signed-in player the message is
      appended as is, unfiltered and without a flag, and the player earns
      10 XP; the input is kept. */
  function QuickMessage(cs: ChatState, gs: GameContext.GameState, message: string, id: string, now: int)
    : (r: (ChatState, GameContext.GameState))
    ensures gs.currentPlayer.None? ==> r == (cs, gs)
    ensures gs.currentPlayer.Some? ==> (
      var p := gs.currentPlayer.value;
      && r.0.messages == cs.messages + [ChatMessage(id, p.id, p.name, p.avatar, message, now, None)]
      && r.0.input == cs.input
      && r.1 == GameContext.GrantXP(gs, XP_SEND_MESSAGE)
      && r.1.currentPlayer == Some(GameContext.AddXP(p, XP_SEND_MESSAGE)))
  {
    match gs.currentPlayer
    case None => (cs, gs)
    case Some(p) =>
      var msg := ChatMessage(id, p.id, p.name, p.avatar, message, now, None);
      (cs.(messages := cs.messages + [msg]), GameContext.GrantXP(gs, XP_SEND_MESSAGE))
  }

  /** `handleEmojiClick(emoji)`: the emoji goes at the end of the input. */
  function EmojiClick(cs: ChatState, emoji: string): (r: ChatState)
    ensures r.messages == cs.messages && |r.input| == |cs.input| + |emoji|
    ensures r.input[..|cs.input|] == cs.input && r.input[|cs.input|..] == emoji
  {
    cs.(input := cs.input + emoji)
  }
}
