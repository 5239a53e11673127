/** The transcript: turns, what makes it legal for a provider, and the repair of one that
an interrupted session left dangling. */
module Transcript {
  import opened Sequences

  datatype Role = User | Assistant | Tool

  datatype Call = Call(id: string, name: string, input: string)

  /** One answer in a tool turn; `Foreign` is an item that is not a record. */
  datatype Answer = Answer(id: string, name: string, output: string) | Foreign

  datatype Content = Text(text: string) | Answers(answers: seq<Answer>)

  datatype Turn = Turn(role: Role, guard: string, content: Content, calls: seq<Call>)

  function UserTurn(guard: string, text: string): Turn {
    Turn(User, guard, Text(text), [])
  }

  function AssistantTurn(text: string, calls: seq<Call>): Turn {
    Turn(Assistant, "", Text(text), calls)
  }

  function ToolTurn(answers: seq<Answer>): Turn {
    Turn(Tool, "", Answers(answers), [])
  }

  // ---- legality ------------------------------------------------------------------------

  predicate Asks(m: Turn) {
    m.role.Assistant? && m.calls != []
  }

  /** `as` answers exactly the calls `cs`, in call order. */
  ghost predicate AnswersExactly(cs: seq<Call>, ans: seq<Answer>) {
    |ans| == |cs| && forall k :: 0 <= k < |cs| ==> ans[k].Answer? && ans[k].id == cs[k].id
  }

  /** A tool turn; when `exact`, one that answers exactly the calls of `m`. */
  ghost predicate Responds(m: Turn, next: Turn, exact: bool) {
    next.role.Tool? && (exact ==> next.content.Answers? && AnswersExactly(m.calls, next.content.answers))
  }

  /** Every turn that asks is immediately followed by a tool turn; when `exact`, by one that
      answers exactly its calls. */
  ghost predicate Legal(t: seq<Turn>, exact: bool) {
    forall i :: 0 <= i < |t| && t[i].role.Assistant? && t[i].calls != [] ==>
      i + 1 < |t| && Responds(t[i], t[i + 1], exact)
  }

  /** A turn that asks is not followed by a tool turn with other answers. */
  ghost predicate NoWrongAnswers(t: seq<Turn>) {
    forall i :: 0 <= i < |t| - 1 && Asks(t[i]) && t[i + 1].role.Tool? ==> Responds(t[i], t[i + 1], true)
  }

  lemma LegalAppend(t: seq<Turn>, m: Turn, exact: bool)
    requires Legal(t, exact) && !Asks(m)
    ensures Legal(t + [m], exact)
  {
  }

  lemma LegalExchange(t: seq<Turn>, m: Turn, next: Turn, exact: bool)
    requires Legal(t, exact) && Responds(m, next, true)
    ensures Legal(t + [m, next], exact)
  {
  }

  // ---- repair ----------------------------------------------------------------------------

  predicate Dangling(m: Turn, rest: seq<Turn>) {
    Asks(m) && (rest == [] || !rest[0].role.Tool?)
  }

  const NEVER_RAN := "this call never ran"

  function Synthetic(m: Turn): (r: Turn)
    ensures Responds(m, r, true) && !Asks(r)
  {
    ToolTurn(seq(|m.calls|, k requires 0 <= k < |m.calls| => Answer(m.calls[k].id, m.calls[k].name, NEVER_RAN)))
  }

  function Repaired(t: seq<Turn>): seq<Turn> {
    if t == [] then []
    else [t[0]] + (if Dangling(t[0], t[1..]) then [Synthetic(t[0])] else []) + Repaired(t[1..])
  }

  function DanglingCount(t: seq<Turn>): nat {
    if t == [] then 0 else (if Dangling(t[0], t[1..]) then 1 else 0) + DanglingCount(t[1..])
  }

  /** Walk the list and insert the missing tool turns. */
  method CloseDanglingToolCalls(messages: seq<Turn>) returns (repaired: seq<Turn>, inserted: nat)
    ensures repaired == Repaired(messages)
    ensures inserted == DanglingCount(messages)
  {
    hide Repaired, DanglingCount, Dangling, Synthetic;
    repaired, inserted := messages, 0;
    ghost var rest := messages;
    var i := 0;
    while i < |repaired|
      invariant i <= |repaired| && repaired[i..] == rest
      invariant repaired[..i] + Repaired(rest) == Repaired(messages)
      invariant inserted + DanglingCount(rest) == DanglingCount(messages)
      decreases |rest|
    {
      var m := repaired[i];
      RepairedStep(repaired, i);
      rest := repaired[i + 1..];
      if Asks(m) && !(i + 1 < |repaired| && repaired[i + 1].role.Tool?) {
        InsertAfter(repaired, i, Synthetic(m));
        repaired := repaired[..i + 1] + [Synthetic(m)] + repaired[i + 1..];
        inserted := inserted + 1;
        i := i + 1;
      }
      i := i + 1;
    }
    RepairedNothing(rest);
    assert repaired[..i] == repaired;
  }

  lemma RepairedNothing(t: seq<Turn>)
    requires t == []
    ensures Repaired(t) == [] && DanglingCount(t) == 0
  {
  }

  lemma RepairedStep(t: seq<Turn>, i: nat)
    requires i < |t|
    ensures var m, rest := t[i], t[i + 1..];
      var missing := Asks(m) && !(i + 1 < |t| && t[i + 1].role.Tool?);
      && t[..i] + Repaired(t[i..]) == t[..i + 1] + (if missing then [Synthetic(m)] else []) + Repaired(rest)
      && DanglingCount(t[i..]) == (if missing then 1 else 0) + DanglingCount(rest)
  {
    hide Synthetic;
    assert t[i..] == [t[i]] + t[i + 1..];
    RepairedCons(t[i], t[i + 1..]);
    assert t[..i + 1] == t[..i] + [t[i]];
  }

  lemma InsertAfter(t: seq<Turn>, i: nat, m: Turn)
    requires i < |t|
    ensures var u := t[..i + 1] + [m] + t[i + 1..];
      u[..i + 2] == t[..i + 1] + [m] && u[i + 2..] == t[i + 1..]
  {
  }

  lemma RepairedHead(t: seq<Turn>)
    requires t != []
    ensures Repaired(t) != [] && Repaired(t)[0] == t[0]
  {
  }

  /** After repair every call is answered by some tool turn; the answers are exact precisely
      when those already present were right, because repair looks only at the role of the
      next turn and never at its ids. */
  lemma {:induction false} RepairIsLegal(t: seq<Turn>, exact: bool)
    ensures Legal(Repaired(t), exact) <==> (exact ==> NoWrongAnswers(t))
  {
    if t != [] {
      var m, rest := t[0], t[1..];
      RepairIsLegal(rest, exact);
      var r := Repaired(rest);
      if Dangling(m, rest) {
        LegalCons2(m, Synthetic(m), r, exact);
      } else {
        if rest != [] { RepairedHead(rest); }
        LegalCons(m, r, exact);
        assert [m] + [] + r == [m] + r;
      }
      NoWrongAnswersCons(t);
    }
  }

  /** A loaded transcript whose wrong answers repair leaves in place. */
  lemma WrongAnswersStay() returns (t: seq<Turn>)
    ensures Legal(t, false) && Repaired(t) == t && !Legal(Repaired(t), true)
  {
    var asked := AssistantTurn("", [Call("a", "fs.read", "")]);
    t := [asked, ToolTurn([Answer("b", "fs.read", "")])];
    RepairLeavesLegal(t, false);
    assert Asks(t[0]) && t[0 + 1].content.answers[0].id != t[0].calls[0].id;
  }

  lemma LegalCons(m: Turn, r: seq<Turn>, exact: bool)
    ensures Legal([m] + r, exact) <==> Legal(r, exact) && (Asks(m) ==> r != [] && Responds(m, r[0], exact))
  {
    var t := [m] + r;
    if Legal(t, exact) {
      assert Asks(t[0]) ==> Responds(t[0], t[0 + 1], exact);
      forall i | 0 <= i < |r| && Asks(r[i]) ensures i + 1 < |r| && Responds(r[i], r[i + 1], exact) {
        assert t[i + 1] == r[i] && Asks(t[i + 1]);
        assert t[i + 1 + 1] == r[i + 1];
      }
    }
  }

  lemma LegalCons2(m: Turn, s: Turn, r: seq<Turn>, exact: bool)
    requires Responds(m, s, true) && !Asks(s)
    ensures Legal([m] + [s] + r, exact) <==> Legal(r, exact)
  {
    assert [m] + [s] + r == [m] + ([s] + r);
    LegalCons(m, [s] + r, exact);
    LegalCons(s, r, exact);
  }

  lemma NoWrongAnswersCons(t: seq<Turn>)
    requires t != []
    ensures NoWrongAnswers(t) <==>
      NoWrongAnswers(t[1..]) && (Asks(t[0]) && |t| > 1 && t[1].role.Tool? ==> Responds(t[0], t[1], true))
  {
    var r := t[1..];
    if NoWrongAnswers(t) {
      forall i | 0 <= i < |r| - 1 && Asks(r[i]) && r[i + 1].role.Tool? ensures Responds(r[i], r[i + 1], true) {
        assert t[i + 1] == r[i] && t[i + 1 + 1] == r[i + 1];
      }
    }
  }

  /** A legal transcript, such as one this loop saved, is loaded as it is. */
  lemma {:induction false} RepairLeavesLegal(t: seq<Turn>, exact: bool)
    requires Legal(t, exact)
    ensures Repaired(t) == t && DanglingCount(t) == 0
    ensures exact ==> NoWrongAnswers(t)
  {
    if t != [] {
      assert t == [t[0]] + t[1..];
      LegalCons(t[0], t[1..], exact);
      RepairLeavesLegal(t[1..], exact);
    }
  }

  lemma RepairedCons(m: Turn, r: seq<Turn>)
    ensures Repaired([m] + r) == [m] + (if Dangling(m, r) then [Synthetic(m)] else []) + Repaired(r)
    ensures DanglingCount([m] + r) == (if Dangling(m, r) then 1 else 0) + DanglingCount(r)
  {
    assert ([m] + r)[1..] == r;
  }

  /** Repairing again changes nothing. */
  lemma {:induction false} RepairIsIdempotent(t: seq<Turn>)
    ensures Repaired(Repaired(t)) == Repaired(t) && DanglingCount(Repaired(t)) == 0
  {
    hide Repaired, DanglingCount, Synthetic;
    if t == [] {
      RepairedNothing(t);
    } else {
      var m, rest := t[0], t[1..];
      assert t == [m] + rest;
      RepairedCons(m, rest);
      RepairIsIdempotent(rest);
      var r := Repaired(rest);
      if Dangling(m, rest) {
        var s := Synthetic(m);
        RepairedCons(s, r);
        RepairedCons(m, [s] + r);
        assert [m] + [s] + r == [m] + ([s] + r);
      } else {
        if rest != [] { RepairedHead(rest); }
        RepairedCons(m, r);
        assert [m] + [] + r == [m] + r;
      }
    }
  }

  /** `u` is `t` with turns inserted and none removed, changed or moved. */
  ghost predicate Embeds(t: seq<Turn>, u: seq<Turn>) {
    if t == [] then true
    else if u == [] then false
    else (t[0] == u[0] && Embeds(t[1..], u[1..])) || Embeds(t, u[1..])
  }

  /** Only missing tool turns are inserted, one for each turn left dangling. */
  lemma {:induction false} RepairOnlyInserts(t: seq<Turn>)
    ensures Embeds(t, Repaired(t)) && |Repaired(t)| == |t| + DanglingCount(t)
  {
    if t != [] {
      var m, rest := t[0], t[1..];
      RepairOnlyInserts(rest);
      var r := Repaired(rest);
      if Dangling(m, rest) {
        assert Repaired(t) == [m, Synthetic(m)] + r;
        assert ([m, Synthetic(m)] + r)[1..] == [Synthetic(m)] + r && ([Synthetic(m)] + r)[1..] == r;
        assert Embeds(rest, [Synthetic(m)] + r);
      } else {
        assert Repaired(t) == [m] + r && ([m] + r)[1..] == r;
      }
    }
  }

  // ---- an interrupt in the middle of a tool turn --------------------------------------------

  function Ids(ans: seq<Answer>): set<string> {
    set a | a in ans && a.Answer? :: a.id
  }

  const INTERRUPTED := "interrupted by user"

  /** One synthetic answer for each call whose id is not among `done`. */
  function Unanswered(cs: seq<Call>, done: set<string>): seq<Answer> {
    if cs == [] then []
    else (if cs[0].id in done then [] else [Answer(cs[0].id, cs[0].name, INTERRUPTED)]) + Unanswered(cs[1..], done)
  }

  /** What is saved when a call is interrupted: the answers so far, then one for every call
      not yet answered. */
  function Interrupted(cs: seq<Call>, results: seq<Answer>): seq<Answer> {
    results + Unanswered(cs, Ids(results))
  }

  lemma {:induction false} UnansweredConcat(a: seq<Call>, b: seq<Call>, done: set<string>)
    ensures Unanswered(a + b, done) == Unanswered(a, done) + Unanswered(b, done)
  {
    if a == [] {
      assert a + b == b;
    } else {
      assert (a + b)[1..] == a[1..] + b;
      UnansweredConcat(a[1..], b, done);
    }
  }

  ghost predicate NoneDone(cs: seq<Call>, done: set<string>) {
    forall c :: c in cs ==> c.id !in done
  }

  lemma {:induction false} UnansweredCounts(cs: seq<Call>, done: set<string>)
    ensures |Unanswered(cs, done)| <= |cs|
    ensures |Unanswered(cs, done)| == |cs| <==> NoneDone(cs, done)
    ensures (forall c :: c in cs ==> c.id in done) ==> Unanswered(cs, done) == []
  {
    if cs != [] {
      UnansweredCounts(cs[1..], done);
      assert NoneDone(cs, done) <==> cs[0].id !in done && NoneDone(cs[1..], done) by { assert cs == [cs[0]] + cs[1..]; }
    }
  }

  lemma {:induction false} UnansweredAnswers(cs: seq<Call>, done: set<string>)
    requires NoneDone(cs, done)
    ensures AnswersExactly(cs, Unanswered(cs, done))
  {
    if cs != [] {
      UnansweredAnswers(cs[1..], done);
      var tail := Unanswered(cs[1..], done);
      assert cs[0] in cs;
      assert forall k :: 0 < k < |cs| ==> cs[k] == cs[1..][k - 1] && Unanswered(cs, done)[k] == tail[k - 1];
    }
  }

  lemma {:induction false} UnansweredAre(cs: seq<Call>, done: set<string>)
    requires NoneDone(cs, done)
    ensures var rest := Unanswered(cs, done);
      |rest| == |cs| && forall k :: 0 <= k < |cs| ==> rest[k] == Answer(cs[k].id, cs[k].name, INTERRUPTED)
  {
    if cs != [] {
      assert cs[0] in cs && NoneDone(cs[1..], done) by { assert forall c :: c in cs[1..] ==> c in cs; }
      UnansweredAre(cs[1..], done);
    }
  }

  /** An interrupt at call `k` answers every call in order exactly when no call from `k` on
      repeats an id that was already answered. */
  lemma InterruptAnswersAll(cs: seq<Call>, k: nat, results: seq<Answer>)
    requires k <= |cs| && AnswersExactly(cs[..k], results)
    ensures AnswersExactly(cs, Interrupted(cs, results)) <==>
      forall i, j :: 0 <= i < k <= j < |cs| ==> cs[i].id != cs[j].id
  {
    hide AnswersExactly, Ids, Unanswered, NoneDone;
    var done := Ids(results);
    var ahead := cs[k..];
    assert cs == cs[..k] + ahead;
    UnansweredConcat(cs[..k], ahead, done);
    IdsOfAnswered(cs[..k], results);
    UnansweredCounts(cs[..k], done);
    UnansweredCounts(ahead, done);
    DisjointAhead(cs, k, done);
    AnswersConcat(cs[..k], results, ahead, Unanswered(ahead, done));
    assert forall c :: c in cs[..k] ==> c.id in done;
    assert Interrupted(cs, results) == results + Unanswered(ahead, done);
    if NoneDone(ahead, done) {
      UnansweredAnswers(ahead, done);
    } else {
      WrongLengthIsNoAnswer(ahead, Unanswered(ahead, done));
    }
  }

  /** A turn that repeats an id, interrupted at its second call: that call gets no answer. */
  lemma RepeatedIdIsLost() returns (cs: seq<Call>, k: nat, results: seq<Answer>)
    ensures k <= |cs| && AnswersExactly(cs[..k], results) && !AnswersExactly(cs, Interrupted(cs, results))
  {
    hide Interrupted;
    cs, k := [Call("a", "sim.run", "1"), Call("a", "sim.run", "2")], 1;
    results := [Answer("a", "sim.run", "passed")];
    InterruptAnswersAll(cs, k, results);
    assert cs[0].id == cs[1].id;
  }

  lemma WrongLengthIsNoAnswer(cs: seq<Call>, ans: seq<Answer>)
    requires |ans| != |cs|
    ensures !AnswersExactly(cs, ans)
  {
  }

  lemma IdsOfAnswered(cs: seq<Call>, results: seq<Answer>)
    requires AnswersExactly(cs, results)
    ensures Ids(results) == set c | c in cs :: c.id
  {
    forall c | c in cs ensures c.id in Ids(results) {
      var i :| 0 <= i < |cs| && cs[i] == c;
      assert results[i] in results;
    }
    forall a | a in results ensures exists c :: c in cs && c.id == a.id {
      var i :| 0 <= i < |results| && results[i] == a;
      assert cs[i] in cs;
    }
  }

  lemma DisjointAhead(cs: seq<Call>, k: nat, done: set<string>)
    requires k <= |cs| && done == set c | c in cs[..k] :: c.id
    ensures NoneDone(cs[k..], done) <==> (forall i, j :: 0 <= i < k <= j < |cs| ==> cs[i].id != cs[j].id)
  {
    forall i, j | 0 <= i < k <= j < |cs| ensures cs[i].id in done && cs[j] in cs[k..] {
      assert cs[i] == cs[..k][i] && cs[j] == cs[k..][j - k];
    }
    forall c | c in cs[k..] && c.id in done ensures exists i, j :: 0 <= i < k <= j < |cs| && cs[i].id == cs[j].id {
      var j :| 0 <= j < |cs| - k && cs[k..][j] == c;
      var i :| 0 <= i < k && cs[..k][i].id == c.id;
      assert cs[i].id == cs[k + j].id;
    }
  }

  lemma AnswersConcat(a: seq<Call>, ra: seq<Answer>, b: seq<Call>, rb: seq<Answer>)
    requires AnswersExactly(a, ra)
    ensures AnswersExactly(a + b, ra + rb) <==> AnswersExactly(b, rb)
  {
    if AnswersExactly(a + b, ra + rb) {
      forall i | 0 <= i < |b| ensures rb[i].Answer? && rb[i].id == b[i].id {
        assert (a + b)[|a| + i] == b[i] && (ra + rb)[|a| + i] == rb[i];
      }
    }
  }

  ghost predicate DistinctIds(cs: seq<Call>) {
    forall i, j :: 0 <= i < j < |cs| ==> cs[i].id != cs[j].id
  }

  // ---- the ledger turn --------------------------------------------------------------------------

  const LEDGER_TAG := "[workspace ledger]"

  predicate IsLedger(m: Turn) {
    m.role.User? && m.content.Text? && LEDGER_TAG <= m.content.text
  }

  function Strip(t: seq<Turn>): seq<Turn> {
    if t == [] then [] else (if IsLedger(t[0]) then [] else [t[0]]) + Strip(t[1..])
  }

  function LedgerCount(t: seq<Turn>): nat {
    if t == [] then 0 else (if IsLedger(t[0]) then 1 else 0) + LedgerCount(t[1..])
  }

  /** Replace the ledger turn by a current one at the end. */
  function Refresh(t: seq<Turn>, ledger: Turn): seq<Turn> {
    Strip(t) + [ledger]
  }

  lemma {:induction false} StripCounts(t: seq<Turn>)
    ensures LedgerCount(Strip(t)) == 0 && |Strip(t)| == |t| - LedgerCount(t)
    ensures LedgerCount(t) == 0 ==> Strip(t) == t
    ensures Embeds(Strip(t), t)
  {
    hide IsLedger;
    if t != [] {
      var m, rest := t[0], t[1..];
      StripCounts(rest);
      if IsLedger(m) {
        assert Strip(t) == Strip(rest);
      } else {
        assert Strip(t) == [m] + Strip(rest) && ([m] + Strip(rest))[1..] == Strip(rest);
      }
    }
  }

  /** Stripping removes the ledger turns and nothing else, and keeps legality. */
  lemma {:induction false} StripMeans(t: seq<Turn>, exact: bool)
    ensures LedgerCount(Strip(t)) == 0
    ensures LedgerCount(t) == 0 ==> Strip(t) == t
    ensures forall m :: m in Strip(t) <==>
      m in t && !(m.role.User? && m.content.Text? && "[workspace ledger]" <= m.content.text)
    ensures Embeds(Strip(t), t) && |Strip(t)| == |t| - LedgerCount(t)
    ensures Legal(t, exact) ==> Legal(Strip(t), exact)
    ensures t != [] && !IsLedger(t[0]) ==> Strip(t) != [] && Strip(t)[0] == t[0]
  {
    hide Legal, LedgerCount, Embeds;
    StripCounts(t);
    if t == [] {
      assert Strip(t) == t;
    } else {
      var m, rest := t[0], t[1..];
      StripMeans(rest, exact);
      assert t == [m] + rest;
      LegalCons(m, rest, exact);
      LegalCons(m, Strip(rest), exact);
      if !IsLedger(m) {
        assert Strip(t) == [m] + Strip(rest);
        assert Legal(t, exact) && Asks(m) ==> rest[0].role.Tool?;
      } else {
        assert Strip(t) == Strip(rest);
      }
    }
  }

  lemma {:induction false} StripConcat(a: seq<Turn>, b: seq<Turn>)
    ensures Strip(a + b) == Strip(a) + Strip(b)
  {
    hide IsLedger;
    if a == [] {
      assert a + b == b;
    } else {
      assert (a + b)[1..] == a[1..] + b;
      StripConcat(a[1..], b);
    }
  }

  lemma {:induction false} LedgerCountConcat(a: seq<Turn>, b: seq<Turn>)
    ensures LedgerCount(a + b) == LedgerCount(a) + LedgerCount(b)
  {
    if a == [] {
      assert a + b == b;
    } else {
      assert (a + b)[1..] == a[1..] + b;
      LedgerCountConcat(a[1..], b);
    }
  }

  /** After a refresh exactly one ledger turn exists, and it is the last turn. */
  lemma RefreshLeavesOne(t: seq<Turn>, ledger: Turn, exact: bool)
    requires IsLedger(ledger)
    ensures LedgerCount(Refresh(t, ledger)) == 1
    ensures Legal(t, exact) ==> Legal(Refresh(t, ledger), exact)
  {
    StripMeans(t, exact);
    LedgerCountConcat(Strip(t), [ledger]);
    if Legal(t, exact) { LegalAppend(Strip(t), ledger, exact); }
  }
}
