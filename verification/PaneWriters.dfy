/**
 * The writers that run inside one queue ticket: a reply (text, settle, submit keys), paced keys and
 * typed input. Each is a fixed plan of writes and pauses, cut short by the first refused write.
 */
module PaneWriters {
  import opened PaneQueue

  const REPLY_SETTLE_MS := 350
  const KEY_GAP_MS := 80

  datatype Action = Write(rpc: Rpc) | Sleep(ms: nat)

  datatype ReplyError = TypedButNotSubmitted | SendFailed

  datatype ReplyOutcome =
    | Sent(textDelivered: bool)
    | NotSent(error: ReplyError, textDelivered: bool)

  /** What one write of typed input sends: some characters as they are, or a key by its name. */
  datatype Segment = Text(text: string) | Named(key: string)

  // ---- Plans ----

  function NonEmpty(pieces: seq<string>): seq<string> {
    if pieces == [] then [] else
    (if pieces[0] == "" then [] else [pieces[0]]) + NonEmpty(pieces[1..])
  }

  function TextWrites(pieces: seq<string>): seq<Action> {
    seq(|pieces|, i requires 0 <= i < |pieces| => Write(SendText(pieces[i])))
  }

  function KeyRpcs(keys: seq<string>): seq<Rpc> {
    seq(|keys|, i requires 0 <= i < |keys| => SendKey(keys[i]))
  }

  /** One write per item, with a pause before each but the first. */
  function Paced(rpcs: seq<Rpc>, gap: nat): seq<Action> {
    if rpcs == [] then [] else
    var n := |rpcs| - 1;
    Paced(rpcs[..n], gap) + (if n > 0 then [Sleep(gap)] else []) + [Write(rpcs[n])]
  }

  function Writes(actions: seq<Action>): seq<Rpc> {
    if actions == [] then [] else
    var last := actions[|actions| - 1];
    Writes(actions[..|actions| - 1]) + if last.Write? then [last.rpc] else []
  }

  /** `done` is what happens when write number `refused` (from 0) is the first one refused. */
  ghost predicate CutAtRefusal(done: seq<Action>, plan: seq<Action>, refused: nat) {
    && done <= plan
    && (refused >= |Writes(plan)| ==> done == plan)
    && (refused < |Writes(plan)| ==>
          |Writes(done)| == refused + 1 && done != [] && done[|done| - 1].Write?)
  }

  lemma {:induction false} WritesAppend(a: seq<Action>, b: seq<Action>)
    ensures Writes(a + b) == Writes(a) + Writes(b)
  {
    if b == [] {
      assert a + b == a;
    } else {
      assert (a + b)[..|a + b| - 1] == a + b[..|b| - 1];
      WritesAppend(a, b[..|b| - 1]);
    }
  }

  lemma {:induction false} WritesOfTexts(pieces: seq<string>)
    ensures Writes(TextWrites(pieces)) == TextRpcs(pieces)
  {
    if pieces != [] {
      var n := |pieces| - 1;
      assert TextWrites(pieces)[..n] == TextWrites(pieces[..n]);
      WritesOfTexts(pieces[..n]);
    }
  }

  function TextRpcs(pieces: seq<string>): (r: seq<Rpc>)
    ensures |r| == |pieces|
  {
    seq(|pieces|, i requires 0 <= i < |pieces| => SendText(pieces[i]))
  }

  // ---- What a pane is seen to receive ----

  /** All text typed, in order. */
  function TextTyped(actions: seq<Action>): string {
    if actions == [] then "" else
    var last := actions[|actions| - 1];
    TextTyped(actions[..|actions| - 1]) + if last.Write? && last.rpc.SendText? then last.rpc.text else ""
  }

  /** All keys pressed by name, in order. */
  function KeysPressed(actions: seq<Action>): seq<string> {
    if actions == [] then [] else
    var last := actions[|actions| - 1];
    KeysPressed(actions[..|actions| - 1]) + if last.Write? && last.rpc.SendKey? then [last.rpc.key] else []
  }

  /** The pieces of a message, put together again. */
  function Joined(pieces: seq<string>): string {
    if pieces == [] then "" else Joined(pieces[..|pieces| - 1]) + pieces[|pieces| - 1]
  }

  /** Writes and pauses take turns, beginning with a write. */
  ghost predicate TakeTurns(actions: seq<Action>, gap: nat) {
    && (actions != [] ==> actions[|actions| - 1].Write?)
    && forall k :: 0 <= k < |actions| ==> if k % 2 == 0 then actions[k].Write? else actions[k] == Sleep(gap)
  }

  /**
   * A reply on its way to the pane: non-empty pieces of text first, then keys, and no key without a
   * pause of 350 ms right before it unless it is the first thing that happens.
   */
  ghost predicate LikeAReply(actions: seq<Action>) {
    && (forall k :: 0 <= k < |actions| && actions[k].Write? && actions[k].rpc.SendKey? ==>
          k == 0 || actions[k - 1] == Sleep(350))
    && (forall k :: 0 <= k < |actions| && actions[k].Write? && actions[k].rpc.SendText? ==>
          actions[k].rpc.text != "" &&
          forall j :: 0 <= j < k ==> actions[j].Write? && actions[j].rpc.SendText?)
    && (forall k :: 0 <= k < |actions| && actions[k].Sleep? ==> actions[k].ms == 350)
  }

  lemma SeenMore(a: seq<Action>, x: Action)
    ensures TextTyped(a + [x]) == TextTyped(a) + if x.Write? && x.rpc.SendText? then x.rpc.text else ""
    ensures KeysPressed(a + [x]) == KeysPressed(a) + if x.Write? && x.rpc.SendKey? then [x.rpc.key] else []
  {
    assert (a + [x])[..|a|] == a;
  }

  lemma {:induction false} TypedAppend(a: seq<Action>, b: seq<Action>)
    ensures TextTyped(a + b) == TextTyped(a) + TextTyped(b)
  {
    if b == [] {
      assert a + b == a;
    } else {
      assert (a + b)[..|a + b| - 1] == a + b[..|b| - 1];
      TypedAppend(a, b[..|b| - 1]);
    }
  }

  lemma {:induction false} PressedAppend(a: seq<Action>, b: seq<Action>)
    ensures KeysPressed(a + b) == KeysPressed(a) + KeysPressed(b)
  {
    if b == [] {
      assert a + b == a;
    } else {
      assert (a + b)[..|a + b| - 1] == a + b[..|b| - 1];
      PressedAppend(a, b[..|b| - 1]);
    }
  }

  lemma SeenAppend(a: seq<Action>, b: seq<Action>)
    ensures TextTyped(a + b) == TextTyped(a) + TextTyped(b)
    ensures KeysPressed(a + b) == KeysPressed(a) + KeysPressed(b)
  {
    TypedAppend(a, b);
    PressedAppend(a, b);
  }

  lemma SeenPrefix(done: seq<Action>, plan: seq<Action>)
    requires done <= plan
    ensures TextTyped(done) <= TextTyped(plan) && KeysPressed(done) <= KeysPressed(plan)
  {
    assert plan == done + plan[|done|..];
    SeenAppend(done, plan[|done|..]);
  }

  lemma {:induction false} SeenOfTexts(texts: seq<string>)
    ensures TextTyped(TextWrites(texts)) == Joined(texts) && KeysPressed(TextWrites(texts)) == []
  {
    if texts != [] {
      var n := |texts| - 1;
      assert TextWrites(texts)[..n] == TextWrites(texts[..n]);
      SeenOfTexts(texts[..n]);
    }
  }

  /** A plan and one more write, with a pause in between if there is anything to pause after. */
  function Then(front: seq<Action>, gap: nat, rpc: Rpc): seq<Action> {
    (if front == [] then [] else front + [Sleep(gap)]) + [Write(rpc)]
  }

  lemma PacedMore(rpcs: seq<Rpc>, gap: nat)
    requires rpcs != []
    ensures Paced(rpcs, gap) == Then(Paced(rpcs[..|rpcs| - 1], gap), gap, rpcs[|rpcs| - 1])
  {}

  lemma SeenThen(front: seq<Action>, gap: nat, key: string)
    ensures TextTyped(Then(front, gap, SendKey(key))) == TextTyped(front)
    ensures KeysPressed(Then(front, gap, SendKey(key))) == KeysPressed(front) + [key]
  {
    if front == [] {
      SeenMore([], Write(SendKey(key)));
      assert Then(front, gap, SendKey(key)) == [] + [Write(SendKey(key))];
    } else {
      SeenMore(front, Sleep(gap));
      SeenMore(front + [Sleep(gap)], Write(SendKey(key)));
    }
  }

  lemma {:induction false} SeenOfKeys(keys: seq<string>, gap: nat)
    ensures TextTyped(Paced(KeyRpcs(keys), gap)) == "" && KeysPressed(Paced(KeyRpcs(keys), gap)) == keys
  {
    if keys != [] {
      var n := |keys| - 1;
      SeenOfKeys(keys[..n], gap);
      assert KeyRpcs(keys)[..n] == KeyRpcs(keys[..n]);
      PacedMore(KeyRpcs(keys), gap);
      SeenThen(Paced(KeyRpcs(keys[..n]), gap), gap, keys[n]);
      assert keys == keys[..n] + [keys[n]];
    }
  }

  lemma {:induction false} NonEmptyKeepsText(pieces: seq<string>)
    ensures Joined(NonEmpty(pieces)) == Joined(pieces)
  {
    if pieces != [] {
      var n := |pieces| - 1;
      NonEmptyKeepsText(pieces[..n]);
      NonEmptyLast(pieces);
      if pieces[n] == "" {
        assert NonEmpty(pieces[..n]) + [] == NonEmpty(pieces[..n]);
      } else {
        JoinedMore(NonEmpty(pieces[..n]), pieces[n]);
      }
    }
  }

  lemma {:induction false} NonEmptyKeepsPieces(pieces: seq<string>)
    ensures multiset(NonEmpty(pieces)) == multiset(pieces)["" := 0]
  {
    if pieces != [] {
      assert pieces == [pieces[0]] + pieces[1..];
      NonEmptyKeepsPieces(pieces[1..]);
    }
  }

  lemma JoinedMore(pieces: seq<string>, last: string)
    ensures Joined(pieces + [last]) == Joined(pieces) + last
  {
    assert (pieces + [last])[..|pieces|] == pieces;
  }

  lemma {:induction false} NonEmptyLast(pieces: seq<string>)
    requires pieces != []
    ensures
      var n := |pieces| - 1;
      NonEmpty(pieces) == NonEmpty(pieces[..n]) + if pieces[n] == "" then [] else [pieces[n]]
  {
    if |pieces| > 1 {
      NonEmptyLast(pieces[1..]);
      assert pieces[1..][..|pieces| - 2] == pieces[..|pieces| - 1][1..];
    }
  }

  lemma TurnsThen(front: seq<Action>, gap: nat, rpc: Rpc)
    requires TakeTurns(front, gap)
    ensures TakeTurns(Then(front, gap, rpc), gap) && |Then(front, gap, rpc)| == if front == [] then 1 else |front| + 2
    ensures front <= Then(front, gap, rpc) && Then(front, gap, rpc)[|Then(front, gap, rpc)| - 1] == Write(rpc)
  {}

  /** A paced plan, position by position. */
  lemma {:induction false} PacedTakesTurns(rpcs: seq<Rpc>, gap: nat)
    ensures TakeTurns(Paced(rpcs, gap), gap)
    ensures |Paced(rpcs, gap)| == if rpcs == [] then 0 else 2 * |rpcs| - 1
    ensures forall i :: 0 <= i < |rpcs| ==> Paced(rpcs, gap)[2 * i] == Write(rpcs[i])
  {
    if rpcs != [] {
      var n := |rpcs| - 1;
      var front, all := Paced(rpcs[..n], gap), Paced(rpcs, gap);
      PacedTakesTurns(rpcs[..n], gap);
      PacedMore(rpcs, gap);
      TurnsThen(front, gap, rpcs[n]);
      forall i | 0 <= i < |rpcs|
        ensures all[2 * i] == Write(rpcs[i])
      {
        if i < n { assert all[2 * i] == front[2 * i]; }
      }
    }
  }

  /** The pauses are only pauses: a paced plan writes exactly its items, in order, one at a time. */
  lemma {:induction false} WritesOfPaced(rpcs: seq<Rpc>, gap: nat)
    ensures Writes(Paced(rpcs, gap)) == rpcs
  {
    if rpcs != [] {
      var n := |rpcs| - 1;
      WritesOfPaced(rpcs[..n], gap);
      var pause := if n > 0 then [Sleep(gap)] else [];
      WritesAppend(Paced(rpcs[..n], gap) + pause, [Write(rpcs[n])]);
      WritesAppend(Paced(rpcs[..n], gap), pause);
      assert Writes([Write(rpcs[n])]) == [rpcs[n]];
    }
  }

  /** Between any two key writes of one plan there is a full pause: no two ever reach the pane as one event. */
  lemma {:induction false} PacedNeverTouch(rpcs: seq<Rpc>, gap: nat, k: nat)
    requires k + 1 < |Paced(rpcs, gap)| && Paced(rpcs, gap)[k].Write?
    ensures Paced(rpcs, gap)[k + 1] == Sleep(gap)
  {
    var n := |rpcs| - 1;
    var before := Paced(rpcs[..n], gap);
    if k + 1 < |before| {
      PacedNeverTouch(rpcs[..n], gap, k);
    }
  }

  // ---- Senders ----

  method SendPaced(rpcs: seq<Rpc>, gap: nat, refused: nat) returns (done: seq<Action>, ok: bool)
    ensures CutAtRefusal(done, Paced(rpcs, gap), refused)
    ensures ok <==> refused >= |rpcs|
  {
    done := [];
    var i := 0;
    while i < |rpcs|
      invariant 0 <= i <= |rpcs| && i <= refused
      invariant done == Paced(rpcs[..i], gap)
    {
      PacedPrefix(rpcs, gap, i);
      assert rpcs[..i + 1][..i] == rpcs[..i];
      if i > 0 {
        done := done + [Sleep(gap)];
      }
      done := done + [Write(rpcs[i])];
      if i == refused {
        WritesOfPaced(rpcs[..i + 1], gap);
        WritesOfPaced(rpcs, gap);
        PacedPrefix(rpcs, gap, i + 1);
        return done, false;
      }
      i := i + 1;
    }
    assert rpcs[..|rpcs|] == rpcs;
    WritesOfPaced(rpcs, gap);
    ok := true;
  }

  lemma {:induction false} PacedPrefix(rpcs: seq<Rpc>, gap: nat, i: nat)
    requires i <= |rpcs|
    ensures Paced(rpcs[..i], gap) <= Paced(rpcs, gap)
  {
    if i < |rpcs| {
      var n := |rpcs| - 1;
      PacedPrefix(rpcs[..n], gap, i);
      assert rpcs[..n][..i] == rpcs[..i];
    } else {
      assert rpcs[..i] == rpcs;
    }
  }

  lemma TurnsFront(done: seq<Action>, plan: seq<Action>, gap: nat)
    requires TakeTurns(plan, gap) && done <= plan && (done != [] ==> done[|done| - 1].Write?)
    ensures TakeTurns(done, gap)
  {
    assert forall k :: 0 <= k < |done| ==> done[k] == plan[k];
  }

  lemma PrefixIs<T>(a: seq<T>, b: seq<T>)
    requires a <= b
    ensures a == b[..|a|]
  {}

  lemma CutEndsInWrite(done: seq<Action>, plan: seq<Action>, gap: nat, refused: nat)
    requires CutAtRefusal(done, plan, refused) && TakeTurns(plan, gap)
    ensures TakeTurns(done, gap)
  {
    if refused < |Writes(plan)| { TurnsFront(done, plan, gap); }
  }

  lemma CutTakesTurns(done: seq<Action>, rpcs: seq<Rpc>, gap: nat, refused: nat)
    requires CutAtRefusal(done, Paced(rpcs, gap), refused)
    ensures TakeTurns(done, gap)
    ensures Writes(done) == rpcs[..if refused < |rpcs| then refused + 1 else |rpcs|]
  {
    var plan := Paced(rpcs, gap);
    PacedTakesTurns(rpcs, gap);
    CutEndsInWrite(done, plan, gap, refused);
    WritesOfPaced(rpcs, gap);
    CutWritesPrefix(done, plan, refused);
    PrefixIs(Writes(done), rpcs);
  }

  /** One write per key, in order and 80 ms apart, up to and with the first that is refused. */
  method SendKeysPaced(keys: seq<string>, refused: nat) returns (done: seq<Action>, ok: bool)
    ensures CutAtRefusal(done, Paced(KeyRpcs(keys), KEY_GAP_MS), refused)
    ensures TakeTurns(done, 80)
    ensures |Writes(done)| == if refused < |keys| then refused + 1 else |keys|
    ensures forall k :: 0 <= k < |Writes(done)| ==> Writes(done)[k] == SendKey(keys[k])
    ensures ok <==> refused >= |keys|
  {
    done, ok := SendPaced(KeyRpcs(keys), KEY_GAP_MS, refused);
    CutTakesTurns(done, KeyRpcs(keys), KEY_GAP_MS, refused);
  }

  /** Refused inside the first part of a plan: the second part never happens. */
  lemma CutInFirst(done: seq<Action>, first: seq<Action>, second: seq<Action>, refused: nat)
    requires CutAtRefusal(done, first, refused) && refused < |Writes(first)|
    ensures CutAtRefusal(done, first + second, refused)
  {
    WritesAppend(first, second);
  }

  lemma CutInSecond(first: seq<Action>, done: seq<Action>, second: seq<Action>, refused: nat)
    requires refused >= |Writes(first)| && CutAtRefusal(done, second, refused - |Writes(first)|)
    ensures CutAtRefusal(first + done, first + second, refused)
  {
    WritesAppend(first, second);
    WritesAppend(first, done);
  }

  /** The loop over the pieces; it notes when one was accepted. */
  method SendTexts(texts: seq<string>, refused: nat) returns (done: seq<Action>, ok: bool, delivered: bool)
    ensures CutAtRefusal(done, TextWrites(texts), refused)
    ensures ok <==> refused >= |texts|
    ensures delivered <==> refused > 0 && texts != []
  {
    WritesOfTexts(texts);
    done, delivered := [], false;
    var i := 0;
    while i < |texts|
      invariant 0 <= i <= |texts| && i <= refused
      invariant done == TextWrites(texts[..i]) && (delivered <==> i > 0)
    {
      done := done + [Write(SendText(texts[i]))];
      assert done == TextWrites(texts[..i + 1]);
      if i == refused {
        TextsCut(texts, i);
        return done, false, delivered;
      }
      delivered := true;
      i := i + 1;
    }
    assert texts[..|texts|] == texts;
    ok := true;
  }

  lemma TextsCut(texts: seq<string>, i: nat)
    requires i < |texts|
    ensures TextWrites(texts[..i + 1]) <= TextWrites(texts) && TextWrites(texts[..i + 1])[i].Write?
    ensures |Writes(TextWrites(texts[..i + 1]))| == i + 1
  {
    WritesOfTexts(texts[..i + 1]);
    assert TextWrites(texts[..i + 1]) == TextWrites(texts)[..i + 1];
  }

  function Settle(texts: seq<string>): seq<Action> {
    if texts == [] then [] else [Sleep(REPLY_SETTLE_MS)]
  }

  function ReplyPlan(pieces: seq<string>, submit: bool, submitKeys: seq<string>): seq<Action> {
    var texts := NonEmpty(pieces);
    if submit then
      (TextWrites(texts) + Settle(texts)) + Paced(KeyRpcs(submitKeys), REPLY_SETTLE_MS)
    else
      TextWrites(texts)
  }

  /** The writes of a reply: every non-empty piece, then each submit key on its own. */
  lemma ReplyWrites(pieces: seq<string>, submit: bool, submitKeys: seq<string>)
    ensures Writes(TextWrites(NonEmpty(pieces)) + Settle(NonEmpty(pieces))) == Writes(TextWrites(NonEmpty(pieces)))
    ensures Writes(ReplyPlan(pieces, submit, submitKeys)) ==
            Writes(TextWrites(NonEmpty(pieces))) + if submit then KeyRpcs(submitKeys) else []
  {
    var texts := NonEmpty(pieces);
    WritesAppend(TextWrites(texts), Settle(texts));
    assert Writes(Settle(texts)) == [];
    WritesAppend(TextWrites(texts) + Settle(texts), Paced(KeyRpcs(submitKeys), REPLY_SETTLE_MS));
    WritesOfPaced(KeyRpcs(submitKeys), REPLY_SETTLE_MS);
  }

  lemma LikeAReplyFront(done: seq<Action>, plan: seq<Action>)
    requires LikeAReply(plan) && done <= plan
    ensures LikeAReply(done)
  {
    assert forall k :: 0 <= k < |done| ==> done[k] == plan[k];
  }

  lemma KeysAlone(rpcs: seq<Rpc>)
    requires forall i :: 0 <= i < |rpcs| ==> rpcs[i].SendKey?
    ensures forall k :: 0 <= k < |Paced(rpcs, 350)| ==>
              if k % 2 == 0 then Paced(rpcs, 350)[k].Write? && Paced(rpcs, 350)[k].rpc.SendKey?
              else Paced(rpcs, 350)[k] == Sleep(350)
  {
    PacedTakesTurns(rpcs, 350);
    forall k | 0 <= k < |Paced(rpcs, 350)|
      ensures if k % 2 == 0 then Paced(rpcs, 350)[k].Write? && Paced(rpcs, 350)[k].rpc.SendKey?
              else Paced(rpcs, 350)[k] == Sleep(350)
    {
      if k % 2 == 0 { assert Paced(rpcs, 350)[2 * (k / 2)] == Write(rpcs[k / 2]); }
    }
  }

  lemma TextsThenKeys(texts: seq<string>, keys: seq<Action>)
    requires "" !in texts
    requires forall k :: 0 <= k < |keys| ==>
             if k % 2 == 0 then keys[k].Write? && keys[k].rpc.SendKey? else keys[k] == Sleep(350)
    ensures LikeAReply(TextWrites(texts))
    ensures LikeAReply(TextWrites(texts) + Settle(texts) + keys)
  {
    var front := TextWrites(texts) + Settle(texts);
    var all := front + keys;
    assert forall k :: 0 <= k < |texts| ==> all[k] == Write(SendText(texts[k])) && texts[k] in texts;
    forall k | |front| <= k < |all|
      ensures all[k] == keys[k - |front|]
      ensures all[k].Write? && all[k].rpc.SendKey? ==> k == 0 || all[k - 1] == Sleep(350)
    {
      if k > |front| { assert all[k - 1] == keys[k - |front| - 1]; }
    }
  }

  /** What a reply looks like to the pane: all the text, then all the submit keys, each on its own. */
  lemma ReplyLooks(pieces: seq<string>, submit: bool, submitKeys: seq<string>)
    ensures LikeAReply(ReplyPlan(pieces, submit, submitKeys))
    ensures TextTyped(ReplyPlan(pieces, submit, submitKeys)) == Joined(pieces)
    ensures KeysPressed(ReplyPlan(pieces, submit, submitKeys)) == if submit then submitKeys else []
    ensures |Writes(ReplyPlan(pieces, submit, submitKeys))| ==
            |pieces| - multiset(pieces)[""] + if submit then |submitKeys| else 0
  {
    var texts, keys := NonEmpty(pieces), Paced(KeyRpcs(submitKeys), REPLY_SETTLE_MS);
    NonEmptyKeepsText(pieces);
    NonEmptyKeepsPieces(pieces);
    assert texts[..] == texts && multiset(texts)[""] == 0;
    assert |multiset(texts)| == |multiset(pieces)| - multiset(pieces)[""];
    ReplyWrites(pieces, submit, submitKeys);
    WritesOfTexts(texts);
    KeysAlone(KeyRpcs(submitKeys));
    TextsThenKeys(texts, keys);
    SeenOfTexts(texts);
    SeenOfKeys(submitKeys, REPLY_SETTLE_MS);
    SeenAppend(TextWrites(texts) + Settle(texts), keys);
    SeenAppend(TextWrites(texts), Settle(texts));
    assert TextTyped(Settle(texts)) == "" && KeysPressed(Settle(texts)) == [];
    assert Joined(pieces) + "" == Joined(pieces) && submitKeys == [] + submitKeys;
  }

  /** Some text write was accepted: one that came before the refused write. */
  ghost predicate Delivered(writes: seq<Rpc>, refused: nat) {
    exists k :: 0 <= k < |writes| && k < refused && writes[k].SendText?
  }

  lemma DeliveredMeans(writes: seq<Rpc>, texts: seq<string>, keys: seq<string>, refused: nat)
    requires writes <= TextRpcs(texts) + KeyRpcs(keys)
    requires refused > 0 && texts != [] ==> writes != []
    ensures Delivered(writes, refused) <==> refused > 0 && texts != []
  {
    var all := TextRpcs(texts) + KeyRpcs(keys);
    assert forall k :: 0 <= k < |writes| ==> writes[k] == all[k];
    if refused > 0 && texts != [] { assert writes[0] == SendText(texts[0]); }
  }

  lemma ReplyDelivered(pieces: seq<string>, submit: bool, submitKeys: seq<string>, refused: nat, done: seq<Action>)
    requires CutAtRefusal(done, ReplyPlan(pieces, submit, submitKeys), refused)
    ensures Delivered(Writes(done), refused) <==> refused > 0 && NonEmpty(pieces) != []
  {
    var texts, keys := NonEmpty(pieces), if submit then submitKeys else [];
    ReplyWrites(pieces, submit, submitKeys);
    WritesOfTexts(texts);
    CutWritesPrefix(done, ReplyPlan(pieces, submit, submitKeys), refused);
    assert Writes(ReplyPlan(pieces, submit, submitKeys)) == TextRpcs(texts) + KeyRpcs(keys);
    DeliveredMeans(Writes(done), texts, keys, refused);
  }

  lemma ReplyDone(pieces: seq<string>, submit: bool, submitKeys: seq<string>, refused: nat, done: seq<Action>)
    requires CutAtRefusal(done, ReplyPlan(pieces, submit, submitKeys), refused)
    ensures LikeAReply(done)
    ensures TextTyped(done) <= Joined(pieces) && KeysPressed(done) <= if submit then submitKeys else []
  {
    ReplyLooks(pieces, submit, submitKeys);
    LikeAReplyFront(done, ReplyPlan(pieces, submit, submitKeys));
    SeenPrefix(done, ReplyPlan(pieces, submit, submitKeys));
  }

  /** The body of the `try`: it ends early at the first refused write. */
  method TypeAndSubmit(pieces: seq<string>, submit: bool, submitKeys: seq<string>, refused: nat)
    returns (done: seq<Action>, ok: bool, delivered: bool)
    ensures CutAtRefusal(done, ReplyPlan(pieces, submit, submitKeys), refused)
    ensures ok <==> refused >= |Writes(ReplyPlan(pieces, submit, submitKeys))|
    ensures delivered <==> refused > 0 && NonEmpty(pieces) != []
  {
    var texts := NonEmpty(pieces);
    ReplyWrites(pieces, submit, submitKeys);
    WritesOfTexts(texts);
    done, ok, delivered := SendTexts(texts, refused);
    ghost var keys := Paced(KeyRpcs(submitKeys), REPLY_SETTLE_MS);
    if ok && submit {
      if texts != [] { done := done + [Sleep(REPLY_SETTLE_MS)]; }
      assert done == TextWrites(texts) + Settle(texts);
      var keysDone;
      keysDone, ok := SendPaced(KeyRpcs(submitKeys), REPLY_SETTLE_MS, refused - |texts|);
      CutInSecond(done, keysDone, keys, refused);
      done := done + keysDone;
    } else if submit {
      CutInFirst(done, TextWrites(texts), Settle(texts) + keys, refused);
      assert TextWrites(texts) + (Settle(texts) + keys) == TextWrites(texts) + Settle(texts) + keys;
    }
  }

  /**
   * A reply typed and submitted: the pieces in order, then the submit keys, with a pause of 350 ms
   * before each key. The outcome says text was delivered exactly when a text write was accepted, so a
   * client that resends only when none was can never type a second copy.
   */
  method SendReplySteps(pieces: seq<string>, submit: bool, submitKeys: seq<string>, refused: nat)
    returns (done: seq<Action>, outcome: ReplyOutcome)
    ensures CutAtRefusal(done, ReplyPlan(pieces, submit, submitKeys), refused)
    ensures LikeAReply(done)
    ensures TextTyped(done) <= Joined(pieces) && KeysPressed(done) <= if submit then submitKeys else []
    ensures outcome.Sent? ==>
              TextTyped(done) == Joined(pieces) && KeysPressed(done) == if submit then submitKeys else []
    ensures outcome.Sent? <==> refused >= |pieces| - multiset(pieces)[""] + if submit then |submitKeys| else 0
    ensures outcome.textDelivered <==> Delivered(Writes(done), refused)
    ensures outcome.NotSent? ==> (outcome.error == TypedButNotSubmitted <==> outcome.textDelivered && submit)
  {
    var ok, delivered;
    done, ok, delivered := TypeAndSubmit(pieces, submit, submitKeys, refused);
    ReplyLooks(pieces, submit, submitKeys);
    ReplyDone(pieces, submit, submitKeys, refused, done);
    ReplyDelivered(pieces, submit, submitKeys, refused, done);
    outcome := if ok then Sent(delivered)
               else NotSent(if delivered && submit then TypedButNotSubmitted else SendFailed, delivered);
  }

  // ---- Typed input ----

  function Literal(key: string): string { if key == "Space" then " " else key }

  predicate IsControl(c: char) { c <= '\U{1F}' || c == '\U{7F}' }

  /** A literal character: one code point that is no control character. */
  predicate IsTyped(key: string) { |Literal(key)| == 1 && !IsControl(Literal(key)[0]) }

  function Keystrokes(keys: seq<string>): seq<string> {
    seq(|keys|, i requires 0 <= i < |keys| => if IsTyped(keys[i]) then Literal(keys[i]) else keys[i])
  }

  function Letters(text: string): seq<string> {
    seq(|text|, i requires 0 <= i < |text| => [text[i]])
  }

  /** The keystrokes a list of segments stands for. */
  function Expand(segments: seq<Segment>): seq<string> {
    if segments == [] then [] else
    var last := segments[|segments| - 1];
    Expand(segments[..|segments| - 1]) + if last.Text? then Letters(last.text) else [last.key]
  }

  /** Text runs are non-empty and maximal, and only named keys stand alone. */
  ghost predicate Canonical(segments: seq<Segment>) {
    && (forall i :: 0 <= i < |segments| && segments[i].Text? ==>
          segments[i].text != "" && forall c :: c in segments[i].text ==> IsTyped([c]))
    && (forall i :: 0 <= i < |segments| && segments[i].Named? ==> !IsTyped(segments[i].key))
    && (forall i, j :: 0 <= i < j < |segments| && j == i + 1 && segments[j].Text? ==> segments[i].Named?)
  }

  /** `out` with the pending run written out, if there is one. */
  function Flushed(out: seq<Segment>, run: string): seq<Segment> {
    if run == "" then out else out + [Text(run)]
  }

  /** Segments finished so far, all ending in a named key, and a run of literal characters still open. */
  ghost predicate Open(out: seq<Segment>, run: string) {
    && Canonical(out) && (out != [] ==> out[|out| - 1].Named?)
    && (forall c :: c in run ==> IsTyped([c]))
  }

  lemma FlushKeeps(out: seq<Segment>, run: string)
    requires Open(out, run)
    ensures Canonical(Flushed(out, run)) && Expand(Flushed(out, run)) == Expand(out) + Letters(run)
  {
    FlushExpands(out, run);
    if run != "" { TextLast(out, run); }
  }

  lemma TextLast(out: seq<Segment>, run: string)
    requires Canonical(out) && (out != [] ==> out[|out| - 1].Named?)
    requires run != "" && forall c :: c in run ==> IsTyped([c])
    ensures Canonical(out + [Text(run)])
  {
    var all := out + [Text(run)];
    forall i | 0 <= i < |all|
      ensures all[i] == if i < |out| then out[i] else Text(run)
    {}
  }

  lemma FlushExpands(out: seq<Segment>, run: string)
    ensures Expand(Flushed(out, run)) == Expand(out) + Letters(run)
  {
    assert (out + [Text(run)])[..|out|] == out;
  }

  lemma NamedKeeps(out: seq<Segment>, key: string)
    requires Canonical(out) && !IsTyped(key)
    ensures Open(out + [Named(key)], "") && Expand(out + [Named(key)]) == Expand(out) + [key]
  {
    assert (out + [Named(key)])[..|out|] == out;
  }

  /** After `i` keys: what is written out plus the open run stands for exactly those keys. */
  ghost predicate Progress(out: seq<Segment>, run: string, keys: seq<string>, i: nat) {
    i <= |keys| && Open(out, run) && Expand(out) + Letters(run) == Keystrokes(keys[..i])
  }

  lemma KeystrokesNext(keys: seq<string>, i: nat)
    requires i < |keys|
    ensures Keystrokes(keys[..i + 1]) ==
            Keystrokes(keys[..i]) + [if IsTyped(keys[i]) then Literal(keys[i]) else keys[i]]
  {}

  lemma TypedProgress(out: seq<Segment>, run: string, keys: seq<string>, i: nat)
    requires i < |keys| && Progress(out, run, keys, i) && IsTyped(keys[i])
    ensures Progress(out, run + Literal(keys[i]), keys, i + 1)
  {
    var ch := Literal(keys[i]);
    KeystrokesNext(keys, i);
    assert ch == [ch[0]];
    assert Letters(run + ch) == Letters(run) + [ch];
    assert Expand(out) + (Letters(run) + [ch]) == Expand(out) + Letters(run) + [ch];
  }

  lemma NamedProgress(out: seq<Segment>, run: string, keys: seq<string>, i: nat)
    requires i < |keys| && Progress(out, run, keys, i) && !IsTyped(keys[i])
    ensures Progress(Flushed(out, run) + [Named(keys[i])], "", keys, i + 1)
  {
    KeystrokesNext(keys, i);
    FlushKeeps(out, run);
    NamedKeeps(Flushed(out, run), keys[i]);
    var all := Expand(Flushed(out, run) + [Named(keys[i])]);
    assert all + Letters("") == all;
  }

  lemma {:induction false} LettersInjective(a: string, b: string)
    requires Letters(a) == Letters(b)
    ensures a == b
  {
    forall i | 0 <= i < |a|
      ensures a[i] == b[i]
    {
      assert Letters(a)[i] == Letters(b)[i];
    }
  }

  /** How a canonical list ends shows in its last keystroke. */
  lemma LastKeystroke(a: seq<Segment>)
    requires Canonical(a) && a != []
    ensures Expand(a) != []
    ensures IsTyped(Expand(a)[|Expand(a)| - 1]) <==> a[|a| - 1].Text?
    ensures a[|a| - 1].Named? ==> Expand(a)[|Expand(a)| - 1] == a[|a| - 1].key
  {
    var last := a[|a| - 1];
    if last.Text? {
      var c := last.text[|last.text| - 1];
      assert c in last.text;
      assert Expand(a)[|Expand(a)| - 1] == [c];
    }
  }

  lemma InsideLastRun(b: seq<Segment>, k: nat)
    requires Canonical(b) && b != [] && b[|b| - 1].Text? && k < |b[|b| - 1].text|
    ensures k < |Expand(b)| && IsTyped(Expand(b)[|Expand(b)| - 1 - k])
  {
    var y := b[|b| - 1].text;
    var c := y[|y| - 1 - k];
    assert c in y && Expand(b)[|Expand(b)| - 1 - k] == [c];
  }

  lemma BeforeLastRun(a: seq<Segment>)
    requires Canonical(a) && a != [] && a[|a| - 1].Text?
    ensures |a[|a| - 1].text| <= |Expand(a)|
    ensures |a[|a| - 1].text| < |Expand(a)| ==> !IsTyped(Expand(a)[|Expand(a)| - 1 - |a[|a| - 1].text|])
  {
    var front := a[..|a| - 1];
    if front != [] { LastKeystroke(front); }
  }

  lemma LongerRunHasNoPlace(a: seq<Segment>, b: seq<Segment>)
    requires Canonical(a) && Canonical(b) && a != [] && b != []
    requires a[|a| - 1].Text? && b[|b| - 1].Text? && Expand(a) == Expand(b)
    ensures |a[|a| - 1].text| >= |b[|b| - 1].text|
  {
    var x, y := a[|a| - 1].text, b[|b| - 1].text;
    assert y != "";
    InsideLastRun(b, if |x| < |y| then |x| else 0);
    BeforeLastRun(a);
  }

  /** The last segment of a canonical list is fixed by the keystrokes alone. */
  lemma LastSegmentFixed(a: seq<Segment>, b: seq<Segment>)
    requires Canonical(a) && Canonical(b) && Expand(a) == Expand(b) && a != [] && b != []
    ensures a[|a| - 1] == b[|b| - 1]
    ensures Expand(a[..|a| - 1]) == Expand(b[..|b| - 1])
  {
    LastKeystroke(a);
    LastKeystroke(b);
    var x, y := a[|a| - 1], b[|b| - 1];
    var ea, eb, e := Expand(a[..|a| - 1]), Expand(b[..|b| - 1]), Expand(a);
    if x.Named? {
      assert ea == e[..|e| - 1] == eb;
    } else {
      LongerRunHasNoPlace(a, b);
      LongerRunHasNoPlace(b, a);
      assert Letters(x.text) == e[|e| - |x.text|..] == Letters(y.text);
      LettersInjective(x.text, y.text);
      assert ea == e[..|e| - |x.text|] == eb;
    }
  }

  /** The contract of `TypedSegments` leaves no choice: one list of segments fits the keystrokes. */
  lemma {:induction false} CanonicalIsUnique(a: seq<Segment>, b: seq<Segment>)
    requires Canonical(a) && Canonical(b) && Expand(a) == Expand(b)
    ensures a == b
  {
    if a != [] { LastKeystroke(a); }
    if b != [] { LastKeystroke(b); }
    if a != [] && b != [] {
      LastSegmentFixed(a, b);
      CanonicalIsUnique(a[..|a| - 1], b[..|b| - 1]);
      assert a == a[..|a| - 1] + [a[|a| - 1]];
      assert b == b[..|b| - 1] + [b[|b| - 1]];
    }
  }

  /** Writes of keystrokes: runs of typed characters, and keys that are no such character. */
  ghost predicate Sendable(segments: seq<Segment>) {
    forall i :: 0 <= i < |segments| ==>
      if segments[i].Text? then forall c :: c in segments[i].text ==> IsTyped([c]) else !IsTyped(segments[i].key)
  }

  lemma ExpandMore(a: seq<Segment>, s: Segment)
    ensures Expand(a + [s]) == Expand(a) + if s.Text? then Letters(s.text) else [s.key]
  {
    assert (a + [s])[..|a|] == a;
  }

  lemma CanonicalFront(front: seq<Segment>, last: Segment)
    requires Canonical(front + [last])
    ensures Canonical(front) && (front != [] && last.Text? ==> front[|front| - 1].Named?)
    ensures last.Text? ==> forall c :: c in last.text ==> IsTyped([c])
  {
    var all, n := front + [last], |front|;
    assert all[n] == last;
    forall i | 0 <= i < n
      ensures front[i] == all[i]
    {}
    assert n > 0 ==> all[n - 1] == front[n - 1];
  }

  lemma LongerRunExpands(front: seq<Segment>, text: string, run: string)
    ensures Expand(front + [Text(text + run)]) == Expand(front + [Text(text)]) + Letters(run)
  {
    ExpandMore(front, Text(text));
    ExpandMore(front, Text(text + run));
    assert Letters(text + run) == Letters(text) + Letters(run);
  }

  lemma RunJoins(front: seq<Segment>, text: string, run: string)
    requires Canonical(front + [Text(text)]) && run != "" && forall c :: c in run ==> IsTyped([c])
    ensures Canonical(front + [Text(text + run)])
    ensures Expand(front + [Text(text + run)]) == Expand(front + [Text(text)]) + Letters(run)
  {
    CanonicalFront(front, Text(text));
    TextLast(front, text + run);
    LongerRunExpands(front, text, run);
  }

  lemma RunFollows(front: seq<Segment>, run: string)
    requires Canonical(front) && (front != [] ==> front[|front| - 1].Named?)
    requires run != "" && forall c :: c in run ==> IsTyped([c])
    ensures Canonical(front + [Text(run)]) && Expand(front + [Text(run)]) == Expand(front) + Letters(run)
  {
    TextLast(front, run);
    ExpandMore(front, Text(run));
  }

  /** A run behind canonical segments joins the run they end in, or becomes the last segment. */
  lemma WithRun(front: seq<Segment>, run: string) returns (a: seq<Segment>)
    requires Canonical(front) && forall c :: c in run ==> IsTyped([c])
    ensures Canonical(a) && |a| <= |front| + 1 && Expand(a) == Expand(front) + Letters(run)
  {
    if run == "" {
      a := front;
      assert Expand(front) + Letters(run) == Expand(front);
    } else if front != [] && front[|front| - 1].Text? {
      var n, text := |front| - 1, front[|front| - 1].text;
      assert front == front[..n] + [Text(text)];
      RunJoins(front[..n], text, run);
      a := front[..n] + [Text(text + run)];
    } else {
      RunFollows(front, run);
      a := front + [Text(run)];
    }
  }

  lemma {:induction false} Canonicalized(b: seq<Segment>) returns (a: seq<Segment>)
    requires Sendable(b)
    ensures Canonical(a) && |a| <= |b| && Expand(a) == Expand(b)
  {
    if b == [] {
      a := [];
    } else {
      var front, last := b[..|b| - 1], b[|b| - 1];
      var c := Canonicalized(front);
      if last.Text? {
        a := WithRun(c, last.text);
      } else {
        a := c + [last];
        NamedKeeps(c, last.key);
      }
    }
  }

  /** No writes that a terminal reads as the same keystrokes are fewer. */
  ghost predicate Fewest(a: seq<Segment>) {
    forall b :: Sendable(b) && Expand(b) == Expand(a) ==> |a| <= |b|
  }

  lemma CanonicalIsFewest(a: seq<Segment>)
    requires Canonical(a)
    ensures Fewest(a)
  {
    forall b | Sendable(b) && Expand(b) == Expand(a)
      ensures |a| <= |b|
    {
      var c := Canonicalized(b);
      CanonicalIsUnique(a, c);
    }
  }

  lemma ProgressDone(out: seq<Segment>, run: string, keys: seq<string>)
    requires Progress(out, run, keys, |keys|)
    ensures Expand(Flushed(out, run)) == Keystrokes(keys) && Canonical(Flushed(out, run)) && Fewest(Flushed(out, run))
  {
    assert keys[..|keys|] == keys;
    FlushKeeps(out, run);
    CanonicalIsFewest(Flushed(out, run));
  }

  /** The segments type exactly these keys, in as few writes as can be. */
  method TypedSegments(keys: seq<string>) returns (out: seq<Segment>)
    ensures Expand(out) == Keystrokes(keys) && Canonical(out) && Fewest(out)
  {
    out := [];
    var run := "";
    for i := 0 to |keys|
      invariant Progress(out, run, keys, i)
    {
      var k := keys[i];
      if IsTyped(k) {
        TypedProgress(out, run, keys, i);
        run := run + Literal(k);
      } else {
        NamedProgress(out, run, keys, i);
        ghost var flushed := Flushed(out, run);
        if run != "" {
          out := out + [Text(run)];
          run := "";
        }
        assert out == flushed;
        out := out + [Named(k)];
      }
    }
    ProgressDone(out, run, keys);
    if run != "" {
      out := out + [Text(run)];
    }
  }

  /** What the pane makes of a list of writes: typed text letter by letter, keys by their names. */
  function Struck(rpcs: seq<Rpc>): seq<string> {
    if rpcs == [] then [] else
    var last := rpcs[|rpcs| - 1];
    Struck(rpcs[..|rpcs| - 1]) +
    if last.SendText? then seq(|last.text|, i requires 0 <= i < |last.text| => [last.text[i]]) else [last.key]
  }

  function SegmentRpcs(segments: seq<Segment>): seq<Rpc> {
    seq(|segments|, i requires 0 <= i < |segments| =>
      match segments[i] case Text(t) => SendText(t) case Named(k) => SendKey(k))
  }

  lemma {:induction false} StruckSegments(segments: seq<Segment>)
    ensures Struck(SegmentRpcs(segments)) == Expand(segments)
  {
    if segments != [] {
      var n := |segments| - 1;
      assert SegmentRpcs(segments)[..n] == SegmentRpcs(segments[..n]);
      StruckSegments(segments[..n]);
      if segments[n].Text? {
        var t := segments[n].text;
        assert Letters(t) == seq(|t|, i requires 0 <= i < |t| => [t[i]]);
      }
    }
  }

  lemma {:induction false} StruckFront(rpcs: seq<Rpc>, n: nat)
    requires n <= |rpcs|
    ensures Struck(rpcs[..n]) <= Struck(rpcs)
  {
    if n < |rpcs| {
      StruckFront(rpcs[..|rpcs| - 1], n);
      assert rpcs[..|rpcs| - 1][..n] == rpcs[..n];
    } else {
      assert rpcs[..n] == rpcs;
    }
  }

  /** A character that is typed as it is: neither a control character nor DEL. */
  predicate Plain(c: char) { ' ' <= c && c != '\U{7F}' }

  /** A write of typed input: a run of plain characters, or a key that is no such character. */
  predicate TypedWrite(rpc: Rpc) {
    match rpc
    case SendText(t) => t != "" && forall c :: c in t ==> Plain(c)
    case SendKey(k) => k != "Space" && (|k| == 1 ==> !Plain(k[0]))
  }

  lemma TypedWrites(segments: seq<Segment>)
    requires Canonical(segments)
    ensures forall k :: 0 <= k < |segments| ==> TypedWrite(SegmentRpcs(segments)[k])
  {
    forall k | 0 <= k < |segments|
      ensures TypedWrite(SegmentRpcs(segments)[k])
    {
      if segments[k].Text? { assert forall c :: c in segments[k].text ==> IsTyped([c]) && Literal([c]) == [c]; }
    }
  }

  lemma KeystrokesMean(keys: seq<string>)
    ensures forall k :: 0 <= k < |keys| ==> Keystrokes(keys)[k] == if keys[k] == "Space" then " " else keys[k]
  {}

  /**
   * Typed input as the pane sees it: exactly the keys, a space for `Space`, with plain characters as
   * text and every other key by its name, in as few writes as can be and 80 ms apart.
   */
  method SendTypedKeys(keys: seq<string>, refused: nat) returns (segments: seq<Segment>, done: seq<Action>, ok: bool)
    ensures Expand(segments) == Keystrokes(keys) && Canonical(segments) && Fewest(segments)
    ensures CutAtRefusal(done, Paced(SegmentRpcs(segments), KEY_GAP_MS), refused)
    ensures ok <==> refused >= |segments|
    ensures TakeTurns(done, 80) && |Writes(done)| == if ok then |segments| else refused + 1
    ensures forall k :: 0 <= k < |Writes(done)| ==> TypedWrite(Writes(done)[k])
    ensures |Struck(Writes(done))| <= |keys| && (ok ==> |Struck(Writes(done))| == |keys|)
    ensures forall k :: 0 <= k < |Struck(Writes(done))| ==>
              Struck(Writes(done))[k] == if keys[k] == "Space" then " " else keys[k]
  {
    segments := TypedSegments(keys);
    done, ok := SendPaced(SegmentRpcs(segments), KEY_GAP_MS, refused);
    TypedDone(keys, segments, refused, done);
  }

  lemma TypedDone(keys: seq<string>, segments: seq<Segment>, refused: nat, done: seq<Action>)
    requires Expand(segments) == Keystrokes(keys) && Canonical(segments)
    requires CutAtRefusal(done, Paced(SegmentRpcs(segments), KEY_GAP_MS), refused)
    ensures TakeTurns(done, KEY_GAP_MS)
    ensures |Writes(done)| == if refused < |segments| then refused + 1 else |segments|
    ensures forall k :: 0 <= k < |Writes(done)| ==> TypedWrite(Writes(done)[k])
    ensures |Struck(Writes(done))| <= |keys| && (refused >= |segments| ==> |Struck(Writes(done))| == |keys|)
    ensures forall k :: 0 <= k < |Struck(Writes(done))| ==>
              Struck(Writes(done))[k] == if keys[k] == "Space" then " " else keys[k]
  {
    var rpcs := SegmentRpcs(segments);
    CutTakesTurns(done, rpcs, KEY_GAP_MS, refused);
    TypedWrites(segments);
    StruckSegments(segments);
    StruckFront(rpcs, |Writes(done)|);
    assert rpcs[..|rpcs|] == rpcs;
    KeystrokesMean(keys);
  }

  /** A cut-short plan writes a prefix of the plan's writes: exactly what a queue ticket may issue. */
  lemma {:induction false} CutWritesPrefix(done: seq<Action>, plan: seq<Action>, refused: nat)
    requires CutAtRefusal(done, plan, refused)
    ensures Writes(done) <= Writes(plan)
    ensures |Writes(done)| == if refused < |Writes(plan)| then refused + 1 else |Writes(plan)|
  {
    WritesAppend(done, plan[|done|..]);
    assert plan == done + plan[|done|..];
  }
}
