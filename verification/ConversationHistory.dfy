/** `authorizedConversationHistory` of `apps/web/lib/ai-command-stream.ts`: which past turns are sent
    to the provider, and the budget of 6,000 characters they share. */
module ConversationHistory {
  import opened JsText
  import opened Selections

  datatype Role = System | User | Assistant

  /** A stored message.  `permitted` is the outcome of the permission checks on an assistant turn:
      some permission is required, all are known, all are allowed. */
  datatype Message = Message(role: Role, content: string, permitted: bool)

  datatype Turn = Turn(role: Role, content: string)

  const MESSAGES := 20
  const TURN_CHARACTERS := 1_000
  const HISTORY_CHARACTERS := 6_000

  /** `content.replace(/\s+/gu, " ")` */
  function Collapsed(s: string): string {
    if s == "" then ""
    else if !IsSpace(s[0]) then [s[0]] + Collapsed(s[1..])
    else if |s| > 1 && IsSpace(s[1]) then Collapsed(s[1..])
    else " " + Collapsed(s[1..])
  }

  function TurnOf(m: Message, safe: string -> bool): seq<Turn> {
    var content := Take(Trim(Collapsed(m.content)), TURN_CHARACTERS);
    if m.role.System? || (m.role.Assistant? && !m.permitted) || content == "" || !safe(content) then []
    else [Turn(m.role, content)]
  }

  function Selected(messages: seq<Message>, safe: string -> bool): seq<Turn> {
    if messages == [] then []
    else Selected(messages[..|messages| - 1], safe) + TurnOf(messages[|messages| - 1], safe)
  }

  method SelectTurns(messages: seq<Message>, safe: string -> bool) returns (selected: seq<Turn>)
    ensures selected == Selected(Newest(messages), safe)
  {
    var newest := Newest(messages);
    selected := [];
    for k := 0 to |newest|
      invariant selected == Selected(newest[..k], safe)
    {
      assert newest[..k + 1][..k] == newest[..k];
      var message := newest[k];
      if message.role.System? { continue; }
      if message.role.Assistant? && !message.permitted { continue; }
      var content := Take(Trim(Collapsed(message.content)), TURN_CHARACTERS);
      if content == "" { continue; }
      if !safe(content) { continue; }
      selected := selected + [Turn(message.role, content)];
    }
    assert newest[..|newest|] == newest;
  }

  /** `messages.slice(-20)` */
  function Newest(messages: seq<Message>): seq<Message> {
    if |messages| <= MESSAGES then messages else messages[|messages| - MESSAGES..]
  }

  // ---- The budget ------------------------------------------------------------------------------------

  function Total(turns: seq<Turn>): nat {
    if turns == [] then 0 else Total(turns[..|turns| - 1]) + |turns[|turns| - 1].content|
  }

  function Kept(turns: seq<Turn>, remaining: nat): seq<Turn> {
    if turns == [] || remaining == 0 then []
    else
      var last := turns[|turns| - 1];
      var content := Take(last.content, remaining);
      Kept(turns[..|turns| - 1], remaining - |content|) + [last.(content := content)]
  }

  method KeepNewest(turns: seq<Turn>) returns (kept: seq<Turn>)
    ensures kept == Kept(turns, HISTORY_CHARACTERS)
  {
    var remaining: nat := HISTORY_CHARACTERS;
    kept := [];
    assert turns[..|turns|] == turns;
    for i := |turns| downto 0
      invariant Kept(turns[..i], remaining) + kept == Kept(turns, HISTORY_CHARACTERS)
    {
      assert turns[..i + 1][..i] == turns[..i];
      if remaining > 0 {
        var content := Take(turns[i].content, remaining);
        remaining := remaining - |content|;
        kept := [turns[i].(content := content)] + kept;
      }
    }
  }

  method AuthorizedHistory(messages: seq<Message>, safe: string -> bool) returns (history: seq<Turn>)
    ensures history == Kept(Selected(Newest(messages), safe), HISTORY_CHARACTERS)
  {
    var selected := SelectTurns(messages, safe);
    history := KeepNewest(selected);
  }

  /** `kept` is the newest turns in order: all of them whole but the oldest, of which it keeps a
      nonempty prefix. */
  predicate NewestTurns(turns: seq<Turn>, kept: seq<Turn>) {
    && |kept| <= |turns|
    && (forall i :: 1 <= i < |kept| ==> kept[i] == turns[|turns| - |kept| + i])
    && (kept != [] ==>
          var oldest := turns[|turns| - |kept|];
          kept[0].role == oldest.role && kept[0].content != "" && kept[0].content <= oldest.content)
  }

  predicate NonEmpty(turns: seq<Turn>) {
    forall i :: 0 <= i < |turns| ==> turns[i].content != ""
  }

  function Min(a: nat, b: nat): nat { if a < b then a else b }

  /** The length kept is exactly the smaller of the budget and the length of all turns. */
  lemma {:induction false} BudgetIsExact(turns: seq<Turn>, remaining: nat)
    ensures Total(Kept(turns, remaining)) == Min(remaining, Total(turns))
  {
    if turns != [] && remaining > 0 {
      var n := |turns| - 1;
      var content := Take(turns[n].content, remaining);
      BudgetIsExact(turns[..n], remaining - |content|);
      var kept := Kept(turns, remaining);
      assert kept[..|kept| - 1] == Kept(turns[..n], remaining - |content|);
    }
  }

  /** What is kept is the newest turns. */
  lemma {:induction false} KeptAreNewest(turns: seq<Turn>, remaining: nat)
    requires NonEmpty(turns)
    ensures NewestTurns(turns, Kept(turns, remaining))
  {
    if turns != [] && remaining > 0 {
      var n := |turns| - 1;
      var content := Take(turns[n].content, remaining);
      KeptAreNewest(turns[..n], remaining - |content|);
      OneMoreKept(turns, remaining, Kept(turns[..n], remaining - |content|));
    }
  }

  lemma OneMoreKept(turns: seq<Turn>, remaining: nat, before: seq<Turn>)
    requires turns != [] && remaining > 0 && turns[|turns| - 1].content != ""
    requires var n := |turns| - 1; var content := Take(turns[n].content, remaining);
             && before == Kept(turns[..n], remaining - |content|) && NewestTurns(turns[..n], before)
    ensures NewestTurns(turns, Kept(turns, remaining))
  {
    var n := |turns| - 1;
    var content := Take(turns[n].content, remaining);
    var kept := Kept(turns, remaining);
    assert kept == before + [turns[n].(content := content)];
    if before != [] {
      assert content == turns[n].content;
    }
  }

  /** Nothing else has these properties, so they say all there is to say about the history. */
  lemma {:induction false} BudgetIsUnique(turns: seq<Turn>, remaining: nat, kept: seq<Turn>)
    requires NonEmpty(turns) && NewestTurns(turns, kept)
    requires Total(kept) == Min(remaining, Total(turns))
    ensures kept == Kept(turns, remaining)
  {
    if turns == [] || kept == [] {
      NothingKept(turns, remaining);
    } else {
      var last, before := kept[|kept| - 1], kept[..|kept| - 1];
      LastKept(turns, remaining, kept);
      BudgetIsUnique(turns[..|turns| - 1], remaining - |last.content|, before);
      KeptLast(turns, remaining, kept, before, last);
    }
  }

  lemma NothingKept(turns: seq<Turn>, remaining: nat)
    requires NonEmpty(turns) && (turns == [] || Min(remaining, Total(turns)) == 0)
    ensures Kept(turns, remaining) == []
  {
    if turns != [] {
      TotalPositive(turns);
    }
  }

  lemma KeptLast(turns: seq<Turn>, remaining: nat, kept: seq<Turn>, before: seq<Turn>, last: Turn)
    requires turns != [] && 0 < remaining && |last.content| <= remaining
    requires kept != [] && before == kept[..|kept| - 1] && last == kept[|kept| - 1]
    requires last == turns[|turns| - 1].(content := Take(turns[|turns| - 1].content, remaining))
    requires before == Kept(turns[..|turns| - 1], remaining - |last.content|)
    ensures Kept(turns, remaining) == kept
  {
    assert kept == before + [last];
  }

  /** The last turn kept is the last turn, cut to the budget, and the others are what the rest of
      the budget keeps of the earlier turns. */
  lemma LastKept(turns: seq<Turn>, remaining: nat, kept: seq<Turn>)
    requires NonEmpty(turns) && NewestTurns(turns, kept) && kept != []
    requires Total(kept) == Min(remaining, Total(turns))
    ensures var n, last, before := |turns| - 1, kept[|kept| - 1], kept[..|kept| - 1];
            && remaining > 0 && |last.content| <= remaining && NonEmpty(turns[..n])
            && last == turns[n].(content := Take(turns[n].content, remaining))
            && NewestTurns(turns[..n], before)
            && Total(before) == Min(remaining - |last.content|, Total(turns[..n]))
  {
    var n := |turns| - 1;
    if n > 0 { TotalPositive(turns[..n]); }
    if |kept| == 1 {
      assert Total(kept[..0]) == 0;
    } else {
      TotalPositive(kept[..|kept| - 1]);
    }
  }

  lemma TotalPositive(turns: seq<Turn>)
    requires turns != [] && turns[0].content != ""
    ensures Total(turns) > 0
  {
    if |turns| == 1 {
      assert turns[..0] == [];
    } else {
      TotalPositive(turns[..|turns| - 1]);
    }
  }

  // ---- The text of a turn ------------------------------------------------------------------------

  /** How far the first word of `s` reaches. */
  function WordEnd(s: string): (n: nat)
    ensures n <= |s| && (n < |s| ==> IsSpace(s[n])) && forall i :: 0 <= i < n ==> !IsSpace(s[i])
    ensures n == 0 <==> s == "" || IsSpace(s[0])
  {
    if s == "" || IsSpace(s[0]) then 0 else 1 + WordEnd(s[1..])
  }

  lemma {:induction false} TrimStartIsNoLonger(s: string)
    ensures |TrimStart(s)| <= |s|
  {
    if s != "" && IsSpace(s[0]) { TrimStartIsNoLonger(s[1..]); }
  }

  /** The words of a text: its longest runs without white space. */
  function Words(s: string): seq<string>
    decreases |s|
  {
    var t := TrimStart(s);
    TrimStartIsNoLonger(s);
    if t == "" then [] else [t[..WordEnd(t)]] + Words(t[WordEnd(t)..])
  }

  /** The words with one space between them. */
  function Spaced(words: seq<string>): string {
    if words == [] then ""
    else if |words| == 1 then words[0] else words[0] + " " + Spaced(words[1..])
  }

  /** Collapsing and trimming leave the words of a text with one space between them. */
  lemma {:induction false} CollapsedIsWords(s: string)
    ensures Trim(Collapsed(s)) == Spaced(Words(s))
    decreases |s|
  {
    var t := TrimStart(s);
    TrimStartIsNoLonger(s);
    CollapsedTrims(s);
    if t != "" {
      var w, r := t[..WordEnd(t)], t[WordEnd(t)..];
      assert t == w + r;
      CollapsedWord(w, r);
      TrimEndAfter(w, Collapsed(r));
      CollapsedIsWords(r);
      assert [w][1..] == [] && ([w] + Words(r))[1..] == Words(r);
      if r != "" {
        CollapsedSpace(r);
        CollapsedTrims(r);
        SpaceThen(Collapsed(TrimStart(r)));
        NoWords(r);
        Associate(w, " ", Spaced(Words(r)));
      } else {
        WithEmpty(w);
      }
    }
  }

  lemma NoWords(r: string)
    ensures Words(r) == [] <==> TrimStart(r) == ""
  {
  }

  lemma {:induction false} CollapsedTrims(s: string)
    ensures TrimStart(Collapsed(s)) == Collapsed(TrimStart(s))
    ensures Collapsed(s) == "" <==> s == ""
    ensures s != "" && !IsSpace(s[0]) ==> Collapsed(s)[0] == s[0]
  {
    if s != "" {
      CollapsedTrims(s[1..]);
      if IsSpace(s[0]) && !(|s| > 1 && IsSpace(s[1])) {
        assert (" " + Collapsed(s[1..]))[1..] == Collapsed(s[1..]);
        assert TrimStart(s[1..]) == s[1..];
      }
    }
  }

  lemma {:induction false} CollapsedWord(w: string, r: string)
    requires forall i :: 0 <= i < |w| ==> !IsSpace(w[i])
    ensures Collapsed(w + r) == w + Collapsed(r)
  {
    if w == "" {
      WithEmpty(r);
      WithEmpty(Collapsed(r));
    } else {
      DropWithin(w, r, 1);
      CollapsedWord(w[1..], r);
      HeadAndTail(w);
      Associate([w[0]], w[1..], Collapsed(r));
    }
  }

  lemma {:induction false} CollapsedSpace(r: string)
    requires r != "" && IsSpace(r[0])
    ensures Collapsed(r) == " " + Collapsed(TrimStart(r))
  {
    if |r| > 1 && IsSpace(r[1]) {
      CollapsedSpace(r[1..]);
    } else {
      assert TrimStart(r[1..]) == r[1..];
    }
  }

  lemma SpaceThen(x: string)
    requires x == "" || !IsSpace(x[0])
    ensures TrimEnd(" " + x) == if x == "" then "" else " " + TrimEnd(x)
  {
    if x != "" {
      HeadAndTail(x);
      Associate(" ", [x[0]], x[1..]);
      TrimEndAfter(" " + [x[0]], x[1..]);
      TrimEndAfter([x[0]], x[1..]);
      Associate(" ", [x[0]], TrimEnd(x[1..]));
    }
  }

  // ---- What is sent ------------------------------------------------------------------------------

  /** The words of a message, one space between them, cut at 1,000 characters. */
  function SentText(m: Message): string {
    Take(Spaced(Words(m.content)), 1_000)
  }

  /** A turn of the user, or one of the assistant whose permissions are granted, with text that is
      not empty and holds no credential. */
  predicate MayBeSent(m: Message, safe: string -> bool) {
    && (m.role.User? || (m.role.Assistant? && m.permitted))
    && SentText(m) != "" && safe(SentText(m))
  }

  function Sendable(safe: string -> bool): Message -> bool {
    (m: Message) => MayBeSent(m, safe)
  }

  function TurnFor(m: Message): Turn {
    Turn(m.role, SentText(m))
  }

  /** `turns` are, in order, the messages among the last twenty that may be sent, and no others;
      `ks` are their places. */
  ghost predicate SentFrom(messages: seq<Message>, safe: string -> bool, turns: seq<Turn>, ks: seq<nat>) {
    && Increasing(ks) && |turns| == |ks|
    && (forall k: nat :: k in ks <==>
          k < |messages| && |messages| - 20 <= k && MayBeSent(messages[k], safe))
    && (forall i :: 0 <= i < |ks| ==>
          ks[i] < |messages| && turns[i] == Turn(messages[ks[i]].role, SentText(messages[ks[i]])))
  }

  lemma SentTurn(m: Message, safe: string -> bool)
    ensures TurnOf(m, safe) == if MayBeSent(m, safe) then [Turn(m.role, SentText(m))] else []
  {
    CollapsedIsWords(m.content);
  }

  lemma {:induction false} SelectedIsPicked(messages: seq<Message>, safe: string -> bool)
    ensures Selected(messages, safe) ==
            Picked(messages, Sendable(safe), TurnFor)
  {
    if messages != [] {
      SelectedIsPicked(messages[..|messages| - 1], safe);
      SentTurn(messages[|messages| - 1], safe);
    }
  }

  /** The selection, by places. */
  lemma SelectedExactly(messages: seq<Message>, safe: string -> bool, turns: seq<Turn>)
    ensures turns == Selected(Newest(messages), safe) <==>
            exists ks :: SentFrom(messages, safe, turns, ks)
  {
    var ks := SelectedPlaces(messages, safe);
    if other :| SentFrom(messages, safe, turns, other) {
      var mine := Selected(Newest(messages), safe);
      forall k: nat ensures k in ks <==> k in other {
        assert k in ks <==> k < |messages| && |messages| - 20 <= k && MayBeSent(messages[k], safe);
      }
      SamePlaces(ks, other);
      assert turns == mine;
    }
  }

  lemma SelectedPlaces(messages: seq<Message>, safe: string -> bool) returns (ks: seq<nat>)
    ensures SentFrom(messages, safe, Selected(Newest(messages), safe), ks)
  {
    var newest := Newest(messages);
    var from := |messages| - |newest|;
    SelectedIsPicked(newest, safe);
    var places := PickedPlaces(newest, Sendable(safe), TurnFor);
    ks := Shifted(places, from);
    ShiftedPlaces(messages, from, Sendable(safe), places);
    ShiftedTaken(messages, from, TurnFor, places, Selected(newest, safe));
    PlacesAreSent(messages, safe, from, Selected(newest, safe), ks);
  }

  lemma PlacesAreSent(messages: seq<Message>, safe: string -> bool, from: nat, turns: seq<Turn>,
                      ks: seq<nat>)
    requires from == if |messages| <= 20 then 0 else |messages| - 20
    requires Increasing(ks) && TakenAt(messages, TurnFor, ks, turns)
    requires forall k: nat :: k in ks <==> from <= k && IsPlace(messages, Sendable(safe), k)
    ensures SentFrom(messages, safe, turns, ks)
  {
    forall k: nat
      ensures k in ks <==> k < |messages| && |messages| - 20 <= k && MayBeSent(messages[k], safe)
    {
      assert k in ks <==> from <= k && IsPlace(messages, Sendable(safe), k);
    }
  }

  lemma {:induction false} SelectedAreEligible(messages: seq<Message>, safe: string -> bool)
    ensures NonEmpty(Selected(messages, safe)) && |Selected(messages, safe)| <= |messages|
    ensures forall t :: t in Selected(messages, safe) ==>
              |t.content| <= TURN_CHARACTERS && safe(t.content) && !t.role.System?
  {
    if messages != [] {
      SelectedAreEligible(messages[..|messages| - 1], safe);
    }
  }

  /** What the provider is sent: the newest of those turns, as many whole as 6,000 characters hold,
      the oldest cut to what is left of them. */
  ghost predicate SentHistory(messages: seq<Message>, safe: string -> bool, history: seq<Turn>) {
    exists turns, ks :: SentFrom(messages, safe, turns, ks) && NewestTurns(turns, history)
                        && Total(history) == Min(6_000, Total(turns))
  }

  /** For every list of messages the history sent is that, and nothing else is. */
  lemma HistoryExactly(messages: seq<Message>, safe: string -> bool, history: seq<Turn>)
    ensures history == Kept(Selected(Newest(messages), safe), HISTORY_CHARACTERS) <==>
            SentHistory(messages, safe, history)
    ensures SentHistory(messages, safe, history) ==> |history| <= 20
  {
    var turns := Selected(Newest(messages), safe);
    var ks := SelectedPlaces(messages, safe);
    SelectedAreEligible(Newest(messages), safe);
    BudgetIsExact(turns, HISTORY_CHARACTERS);
    KeptAreNewest(turns, HISTORY_CHARACTERS);
    if SentHistory(messages, safe, history) {
      var others, places :| SentFrom(messages, safe, others, places) && NewestTurns(others, history)
                            && Total(history) == Min(6_000, Total(others));
      SelectedExactly(messages, safe, others);
      BudgetIsUnique(turns, HISTORY_CHARACTERS, history);
    }
  }

  /** A turn with the text of message `k`, one of the last twenty, or with the beginning of it. */
  predicate Sends(messages: seq<Message>, safe: string -> bool, k: nat, turn: Turn) {
    && k < |messages| && |messages| - 20 <= k && MayBeSent(messages[k], safe)
    && turn.role == messages[k].role && turn.content <= SentText(messages[k])
    && (turn.role.Assistant? ==> messages[k].permitted)
  }

  /** Every turn sent comes from such a message; an assistant's turn is sent only if its permissions
      are granted. */
  lemma SentTurnsMayBeSent(messages: seq<Message>, safe: string -> bool, history: seq<Turn>, i: nat)
    requires history == Kept(Selected(Newest(messages), safe), HISTORY_CHARACTERS) && i < |history|
    ensures exists k: nat :: Sends(messages, safe, k, history[i])
  {
    HistoryExactly(messages, safe, history);
    var turns, ks :| SentFrom(messages, safe, turns, ks) && NewestTurns(turns, history)
                     && Total(history) == Min(6_000, Total(turns));
    var j := |turns| - |history| + i;
    TurnIsSent(messages, safe, turns, ks, j);
    KeptBegins(turns, history, i);
    BeginningIsSent(messages, safe, ks[j], turns[j], history[i]);
  }

  lemma KeptBegins(turns: seq<Turn>, kept: seq<Turn>, i: nat)
    requires NewestTurns(turns, kept) && i < |kept|
    ensures var whole := turns[|turns| - |kept| + i];
            kept[i].role == whole.role && kept[i].content <= whole.content
  {
  }

  lemma BeginningIsSent(messages: seq<Message>, safe: string -> bool, k: nat, whole: Turn, turn: Turn)
    requires Sends(messages, safe, k, whole)
    requires turn.role == whole.role && turn.content <= whole.content
    ensures exists k: nat :: Sends(messages, safe, k, turn)
  {
    assert Sends(messages, safe, k, turn);
  }

  lemma TurnIsSent(messages: seq<Message>, safe: string -> bool, turns: seq<Turn>, ks: seq<nat>, j: nat)
    requires SentFrom(messages, safe, turns, ks) && j < |turns|
    ensures Sends(messages, safe, ks[j], turns[j])
    ensures turns[j] == Turn(messages[ks[j]].role, SentText(messages[ks[j]]))
  {
    assert ks[j] in ks;
  }
}
