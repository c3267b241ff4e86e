/** Counting the messages of an HTML validation result (src/lib/utils.ts). */
module Counting {
  import opened Types

  /** The accumulator of the reduce: `{ errors, infos }`. */
  datatype Counts = Counts(errors: nat, infos: nat) {
    function Plus(other: Counts): Counts {
      Counts(errors + other.errors, infos + other.infos)
    }
  }

  /** The types the client treats as errors. */
  predicate IsErrorLike(t: MessageType) {
    t == Error || t == NonDocumentError
  }

  /** One step of the reduce: two independent tests on the message type.
      Exactly one counter goes up by one, and it is the one for the message's type. */
  function Step(acc: Counts, msg: HtmlMessage): (next: Counts)
    ensures next.errors >= acc.errors && next.infos >= acc.infos
    ensures next.errors + next.infos == acc.errors + acc.infos + 1
    ensures next.errors > acc.errors <==> IsErrorLike(msg.kind)
    ensures next.infos > acc.infos <==> msg.kind == Info
  {
    var afterErrors := if IsErrorLike(msg.kind) then acc.(errors := acc.errors + 1) else acc;
    if msg.kind == Info then afterErrors.(infos := afterErrors.infos + 1) else afterErrors
  }

  /** The reduce from the left, starting at `{ errors: 0, infos: 0 }`.
      Every message bumps exactly one counter, because the type is closed. */
  function Tally(messages: seq<HtmlMessage>): (c: Counts)
    ensures c.errors + c.infos == |messages|
  {
    if messages == [] then Counts(0, 0)
    else Step(Tally(messages[..|messages| - 1]), messages[|messages| - 1])
  }

  /** The message types, in order. */
  function Kinds(messages: seq<HtmlMessage>): seq<MessageType> {
    seq(|messages|, i requires 0 <= i < |messages| => messages[i].kind)
  }

  /** `countHtmlValidationResults`: walks the messages once, updating two counters. */
  method CountHtmlValidationResults(data: HtmlResponse) returns (counts: Counts)
    ensures counts == Tally(data.messages)
  {
    var errors, infos := 0, 0;
    for i := 0 to |data.messages|
      invariant Counts(errors, infos) == Tally(data.messages[..i])
    {
      var msg := data.messages[i];
      if msg.kind == Error || msg.kind == NonDocumentError {
        errors := errors + 1;
      }
      if msg.kind == Info {
        infos := infos + 1;
      }
      assert data.messages[..i + 1][..i] == data.messages[..i];
    }
    assert data.messages[..|data.messages|] == data.messages;
    counts := Counts(errors, infos);
  }

  /** The counts are the multiplicities of the types: errors for the two
      error-like types together, infos for `info`. */
  lemma {:induction false} TallyCountsKinds(messages: seq<HtmlMessage>)
    ensures Tally(messages).errors == multiset(Kinds(messages))[Error] + multiset(Kinds(messages))[NonDocumentError]
    ensures Tally(messages).infos == multiset(Kinds(messages))[Info]
  {
    if messages != [] {
      var init := messages[..|messages| - 1];
      TallyCountsKinds(init);
      assert Kinds(messages) == Kinds(init) + [messages[|messages| - 1].kind];
    }
  }

  /** The empty message list counts as no errors and no infos. */
  lemma TallyEmpty()
    ensures Tally([]) == Counts(0, 0)
  {
  }

  /** There is an error to count exactly when some message is error-like. */
  lemma {:induction false} ErrorsPositive(messages: seq<HtmlMessage>)
    ensures Tally(messages).errors > 0 <==> exists i :: 0 <= i < |messages| && IsErrorLike(messages[i].kind)
  {
    if messages != [] {
      var init := messages[..|messages| - 1];
      ErrorsPositive(init);
      if exists i :: 0 <= i < |init| && IsErrorLike(init[i].kind) {
        var i :| 0 <= i < |init| && IsErrorLike(init[i].kind);
        assert messages[i] == init[i];
      }
      if exists i :: 0 <= i < |messages| && IsErrorLike(messages[i].kind) {
        var i :| 0 <= i < |messages| && IsErrorLike(messages[i].kind);
        if i < |init| { assert init[i] == messages[i]; }
      }
    }
  }

  /** There is an info to count exactly when some message has type `info`. */
  lemma {:induction false} InfosPositive(messages: seq<HtmlMessage>)
    ensures Tally(messages).infos > 0 <==> exists i :: 0 <= i < |messages| && messages[i].kind == Info
  {
    if messages != [] {
      var init := messages[..|messages| - 1];
      InfosPositive(init);
      if exists i :: 0 <= i < |init| && init[i].kind == Info {
        var i :| 0 <= i < |init| && init[i].kind == Info;
        assert messages[i] == init[i];
      }
      if exists i :: 0 <= i < |messages| && messages[i].kind == Info {
        var i :| 0 <= i < |messages| && messages[i].kind == Info;
        if i < |init| { assert init[i] == messages[i]; }
      }
    }
  }

  /** Adding counts commutes with one step of the reduce. */
  lemma StepPlus(c: Counts, d: Counts, msg: HtmlMessage)
    ensures Step(c.Plus(d), msg) == c.Plus(Step(d, msg))
  {
  }

  /** Counting a concatenation is adding the counts of the parts. */
  lemma {:induction false} TallyAppend(a: seq<HtmlMessage>, b: seq<HtmlMessage>)
    ensures Tally(a + b) == Tally(a).Plus(Tally(b))
    decreases |b|
  {
    if b == [] {
      assert a + b == a;
    } else {
      var init, last := b[..|b| - 1], b[|b| - 1];
      var ab := a + b;
      assert ab[..|ab| - 1] == a + init;
      assert ab[|ab| - 1] == last;
      calc {
        Tally(ab);
        Step(Tally(a + init), last);
        { TallyAppend(a, init); }
        Step(Tally(a).Plus(Tally(init)), last);
        { StepPlus(Tally(a), Tally(init), last); }
        Tally(a).Plus(Step(Tally(init), last));
        Tally(a).Plus(Tally(b));
      }
    }
  }

  /** The last two of three added counts can be swapped. */
  lemma PlusSwap(a: Counts, b: Counts, c: Counts)
    ensures a.Plus(b).Plus(c) == a.Plus(c).Plus(b)
  {
  }

  /** Taking one part out of the middle of a list takes its count out of the list's count. */
  lemma TallyWithout(front: seq<HtmlMessage>, middle: seq<HtmlMessage>, back: seq<HtmlMessage>)
    ensures Tally(front + middle + back) == Tally(front + back).Plus(Tally(middle))
  {
    calc {
      Tally(front + middle + back);
      { TallyAppend(front + middle, back); }
      Tally(front + middle).Plus(Tally(back));
      { TallyAppend(front, middle); }
      Tally(front).Plus(Tally(middle)).Plus(Tally(back));
      { PlusSwap(Tally(front), Tally(middle), Tally(back)); }
      Tally(front).Plus(Tally(back)).Plus(Tally(middle));
      { TallyAppend(front, back); }
      Tally(front + back).Plus(Tally(middle));
    }
  }

  /** A message that occurs in a list splits it into the part before one
      occurrence and the part after it; together they hold everything else. */
  lemma SplitAround(b: seq<HtmlMessage>, x: HtmlMessage) returns (front: seq<HtmlMessage>, back: seq<HtmlMessage>)
    requires x in multiset(b)
    ensures b == front + [x] + back
    ensures multiset(front + back) == multiset(b) - multiset{x}
  {
    var j :| 0 <= j < |b| && b[j] == x;
    front, back := b[..j], b[j + 1..];
    assert b == front + [x] + back;
  }

  /** Reordering the messages does not change the counts. */
  lemma {:induction false} TallyPermutation(a: seq<HtmlMessage>, b: seq<HtmlMessage>)
    requires multiset(a) == multiset(b)
    ensures Tally(a) == Tally(b)
    decreases |a|
  {
    if a == [] {
      assert |b| == |multiset(b)| == 0;
    } else {
      var last, init := a[|a| - 1], a[..|a| - 1];
      assert a == init + [last];
      assert multiset(init) == multiset(a) - multiset{last};
      assert last in multiset(b);
      var front, back := SplitAround(b, last);
      calc {
        Tally(a);
        { TallyAppend(init, [last]); }
        Tally(init).Plus(Tally([last]));
        { TallyPermutation(init, front + back); }
        Tally(front + back).Plus(Tally([last]));
        { TallyWithout(front, [last], back); }
        Tally(b);
      }
    }
  }
}
