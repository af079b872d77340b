/**
 * The check semaphore is not a reusable barrier: exactly when a round can leave a child out. Schedules are built
 * step by step, so the results say what some, and what every, continuation of a round does.
 */
module ConverterOverlap {
  import opened Sums
  import opened ConverterServer

  ghost predicate Connects(r: seq<State>, s: State, t: State, convert: Converter) {
    Path(r, convert) && r[0] == s && r[|r| - 1] == t
  }

  /** Some schedule leads from s to t. */
  ghost predicate Leads(s: State, t: State, convert: Converter) {
    exists r :: Connects(r, s, t, convert)
  }

  lemma LeadsSelf(s: State, convert: Converter)
    ensures Leads(s, s, convert)
  {
    assert Connects([s], s, s, convert);
  }

  lemma LeadsOn(s: State, m: State, a: Actor, convert: Converter) returns (t: State)
    requires Leads(s, m, convert) && Inv(m, convert) && Enabled(m, a)
    ensures Sized(m) && t == Do(m, a, convert) && Leads(s, t, convert) && Inv(t, convert)
  {
    hide InRange, Exclusion, Barrier, OneClient, TidyRound, Answers, FirstRound, FatherDo, ChildDo, ClientDo;
    t := Do(m, a, convert);
    assert Step(m, t, convert);
    StepKeepsInv(m, t, convert);
    var r :| Connects(r, s, m, convert);
    hide Step;
    assert Connects(r + [t], s, t, convert);
  }

  /** The father waits for completions and no child is between taking work and announcing its completion. */
  ghost predicate Quiet(s: State) {
    s.father == Gather(0) && forall j :: 0 <= j < |s.children| ==> s.children[j].Wait? || s.children[j].Check?
  }

  /** What a schedule that moves only children may change. */
  ghost predicate SameFather(s: State, t: State) {
    && t.father == s.father && t.round == s.round && t.client == s.client && t.todo == s.todo && t.request == s.request
    && t.replies == s.replies && |t.children| == |s.children|
  }

  /** A waiting child takes a token, converts and announces. */
  lemma ServeChild(s0: State, s: State, u: nat, convert: Converter) returns (t: State)
    requires Leads(s0, s, convert) && Inv(s, convert) && Quiet(s)
    requires u < |s.children| && s.children[u].Wait? && s.f > 0
    ensures Leads(s0, t, convert) && Inv(t, convert) && SameFather(s, t) && Quiet(t) && Sized(s) && Sized(t)
    ensures t.children == s.children[u := Check] && t.f == s.f - 1 && t.check == s.check
    ensures t.done == s.done[u := s.done[u] + 1]
    ensures t.results == s.results[u := convert(s.request, u)]
  {
    hide Inv, Leads;
    t := LeadsOn(s0, s, TheChild(u), convert);
    t := LeadsOn(s0, t, TheChild(u), convert);
    t := LeadsOn(s0, t, TheChild(u), convert);
  }

  /** With no child at work, the tokens say how many children wait. */
  lemma QuietCounts(s: State, convert: Converter)
    requires Inv(s, convert) && Quiet(s)
    ensures Sum(s.children, Away) == s.check + |s.children| - s.f && s.f >= 0 && s.check >= 0
    ensures s.p == |s.children| - s.f
  {
    hide Conversions, TidyRound, Answers, FirstRound, OneClient;
    SumZero(s.children, Working);
  }

  /**
   * The schedule that leaves child v out: as long as a token is left some other child can take it, if need be
   * after passing check a second time.
   */
  lemma {:induction false} StarveChild(s0: State, s: State, v: nat, convert: Converter) returns (t: State)
    requires Leads(s0, s, convert) && Inv(s, convert) && Quiet(s) && Sized(s)
    requires 2 <= |s.children| && v < |s.children| && s.children[v].Check? && s.done[v] == 0
    ensures Leads(s0, t, convert) && Inv(t, convert) && SameFather(s, t) && Quiet(t) && Sized(t)
    ensures t.f == 0 && t.done[v] == 0 && t.results[v] == s.results[v]
    decreases s.f
  {
    hide Inv, Leads;
    QuietCounts(s, convert);
    if s.f == 0 {
      t := s;
    } else if Sum(s.children, Away) != |s.children| {
      var u := SomeWaiting(s.children);
      t := ServeChild(s0, s, u, convert);
      t := StarveChild(s0, t, v, convert);
    } else {
      var u := if v == 0 then 1 else 0;
      AllAway(s.children);
      t := LeadsOn(s0, s, TheChild(u), convert);
      t := ServeChild(s0, t, u, convert);
      t := StarveChild(s0, t, v, convert);
    }
  }

  /** The father's loops: from the first post to the first wait. */
  lemma {:induction false} PostAll(s0: State, s: State, convert: Converter) returns (t: State)
    requires Leads(s0, s, convert) && Inv(s, convert) && s.father.Scatter? && s.father.i <= |s.children|
    ensures Leads(s0, t, convert) && Inv(t, convert)
    ensures t == s.(father := Gather(0), f := s.f + |s.children| - s.father.i)
    decreases |s.children| - s.father.i
  {
    hide Inv, Leads;
    t := LeadsOn(s0, s, TheFather, convert);
    if s.father.i != |s.children| {
      t := PostAll(s0, t, convert);
    }
  }

  /** The father's loops: from a wait that finds its completions to the copy back. */
  lemma {:induction false} GatherAll(s0: State, s: State, convert: Converter) returns (t: State)
    requires Leads(s0, s, convert) && Inv(s, convert)
    requires match s.father
             case Gather(i) => i <= |s.children| && s.p == |s.children| - i
             case Release(i) => i <= |s.children|
             case _ => false
    ensures Leads(s0, t, convert) && Inv(t, convert)
    ensures t.father == CopyBack && t.children == s.children && t.done == s.done && t.f == s.f
    ensures t.round == s.round && t.client == s.client && t.todo == s.todo && t.request == s.request
    ensures t.results == s.results && t.replies == s.replies
    ensures t.check == s.check + |s.children| - if s.father.Release? then s.father.i else 0
    decreases s.father.Gather?, |s.children| - s.father.i
  {
    hide Inv, Leads;
    t := LeadsOn(s0, s, TheFather, convert);
    if !(s.father.Release? && s.father.i == |s.children|) {
      t := GatherAll(s0, t, convert);
    }
  }

  /** In the round in which t is, child j has its conversion of this round's request in the results. */
  ghost predicate Served(t: State, j: nat, convert: Converter) {
    j < |t.done| && j < |t.results| && t.done[j] == 1 && t.results[j] == convert(t.request, j)
  }

  /** The round that s starts ends, under every schedule, with one conversion by every child. */
  ghost predicate AlwaysComplete(s: State, convert: Converter) {
    forall t :: Leads(s, t, convert) && t.round == s.round && t.father.CopyBack? ==>
      forall j: nat :: j < |s.children| ==> Served(t, j, convert)
  }

  /** With two or more children and a check token left over, some schedule leaves a child out. */
  lemma LeftoverStarves(s: State, convert: Converter)
    requires Inv(s, convert) && s.father.Copy? && s.check > 0 && |s.children| >= 2
    ensures !AlwaysComplete(s, convert)
  {
    hide Leads;
    CheckBetweenRounds(s, convert);
    SumNonNegative(s.children, Away);
    var v := SumWitness(s.children, Away);
    LeadsSelf(s, convert);
    hide Inv;
    var t := LeadsOn(s, s, TheFather, convert);
    t := PostAll(s, t, convert);
    t := StarveChild(s, t, v, convert);
    QuietCounts(t, convert);
    t := GatherAll(s, t, convert);
    assert !Served(t, v, convert);
  }

  /** What a round that starts tidy keeps, whatever the schedule. */
  ghost predicate StaysTidy(s: State, t: State) {
    && |t.children| == |s.children| && t.round >= s.round
    && (t.round == s.round && t.father.Copy? ==> t.check == 0)
    && (t.round == s.round && !t.father.Copy? ==> t.tidy)
  }

  lemma TidyStep(s: State, m: State, t: State, convert: Converter)
    requires Inv(m, convert) && Step(m, t, convert) && StaysTidy(s, m)
    ensures StaysTidy(s, t)
  {
    hide Inv, FatherDo, ClientDo, ChildDo, StaysTidy;
    var a :| Sized(m) && Enabled(m, a) && t == Do(m, a, convert);
    match a
    case TheFather => TidyFather(s, m);
    case TheClient => TidyClient(s, m, convert);
    case TheChild(j) => TidyChild(s, m, j, convert);
  }

  lemma TidyFather(s: State, m: State)
    requires Enabled(m, TheFather) && StaysTidy(s, m)
    ensures StaysTidy(s, FatherDo(m))
  {
  }

  lemma TidyClient(s: State, m: State, convert: Converter)
    requires Enabled(m, TheClient) && StaysTidy(s, m)
    ensures StaysTidy(s, ClientDo(m))
  {
  }

  lemma TidyChild(s: State, m: State, j: nat, convert: Converter)
    requires Sized(m) && Enabled(m, TheChild(j)) && StaysTidy(s, m)
    ensures StaysTidy(s, ChildDo(m, j, convert))
  {
  }

  lemma {:induction false} TidyPath(r: seq<State>, k: nat, convert: Converter)
    requires Path(r, convert) && k < |r| && Inv(r[0], convert) && r[0].father.Copy? && r[0].check == 0
    ensures Inv(r[k], convert) && StaysTidy(r[0], r[k])
  {
    hide Inv, Step;
    if k > 0 {
      TidyPath(r, k - 1, convert);
      StepKeepsInv(r[k - 1], r[k], convert);
      TidyStep(r[0], r[k - 1], r[k], convert);
    }
  }

  lemma {:induction false} InvPath(r: seq<State>, k: nat, convert: Converter)
    requires Path(r, convert) && k < |r| && Inv(r[0], convert)
    ensures Inv(r[k], convert) && |r[k].children| == |r[0].children|
  {
    hide Inv, Step;
    if k > 0 {
      InvPath(r, k - 1, convert);
      StepKeepsInv(r[k - 1], r[k], convert);
      StepRequests(r[k - 1], r[k], convert);
    }
  }

  lemma CopyBackServed(t: State, j: nat, convert: Converter)
    requires Inv(t, convert) && t.father.CopyBack? && j < |t.children|
    requires t.tidy || |t.children| == 1
    ensures Served(t, j, convert)
  {
    if !t.tidy {
      ConversionsPerRound(t, convert);
      assert t.done == [t.done[0]];
      assert Sum(t.done, Count) == t.done[0] + Sum(t.done[1..], Count);
    }
  }

  /**
   * A round serves every child exactly once under every schedule if and only if it starts with check at 0, or
   * there is at most one child.
   */
  lemma CompleteExactly(s: State, convert: Converter)
    requires Inv(s, convert) && s.father.Copy?
    ensures AlwaysComplete(s, convert) <==> (s.check == 0 || |s.children| <= 1)
  {
    hide Inv;
    CheckNonNegative(s, convert);
    if s.check > 0 && |s.children| >= 2 {
      LeftoverStarves(s, convert);
    } else {
      forall t, j: nat | Leads(s, t, convert) && t.round == s.round && t.father.CopyBack? && j < |s.children|
        ensures Served(t, j, convert)
      {
        var r :| Connects(r, s, t, convert);
        InvPath(r, |r| - 1, convert);
        if s.check == 0 {
          TidyPath(r, |r| - 1, convert);
        }
        CopyBackServed(t, j, convert);
      }
    }
  }

  lemma CheckNonNegative(s: State, convert: Converter)
    requires Inv(s, convert)
    ensures s.check >= 0
  {
  }

  // ----- the overlap does happen -----

  /** The schedule in which every waiting child takes one token. */
  lemma {:induction false} ServeAll(s0: State, s: State, convert: Converter) returns (t: State)
    requires Leads(s0, s, convert) && Inv(s, convert) && Quiet(s) && s.check == 0
    ensures Leads(s0, t, convert) && Inv(t, convert) && SameFather(s, t) && Quiet(t) && t.check == 0 && t.f == 0
    decreases s.f
  {
    hide Inv, Leads;
    QuietCounts(s, convert);
    if s.f <= 0 {
      t := s;
    } else {
      var u := SomeWaiting(s.children);
      t := ServeChild(s0, s, u, convert);
      t := ServeAll(s0, t, convert);
    }
  }

  /** From a client that writes its request to the father about to copy it. */
  lemma AskOnce(s0: State, s: State, convert: Converter) returns (t: State)
    requires Leads(s0, s, convert) && Inv(s, convert) && s.client.Write? && s.todo != [] && s.father.Await?
    ensures Leads(s0, t, convert) && Inv(t, convert) && t.father.Copy? && t.client.Receive? && t.round == s.round + 1
    ensures t.clientRequest == t.todo[0] && t.todo == s.todo && t.replies == s.replies
    ensures t.children == s.children && t.results == s.results && t.check == s.check
  {
    IdleTokens(s, convert);
    hide Inv, Leads;
    t := LeadsOn(s0, s, TheClient, convert);
    t := LeadsOn(s0, t, TheClient, convert);
    t := LeadsOn(s0, t, TheFather, convert);
  }

  /** From the copy back to a client that has read the results. */
  lemma AnswerOnce(s0: State, s: State, convert: Converter) returns (t: State)
    requires Leads(s0, s, convert) && Inv(s, convert) && s.father.CopyBack?
    ensures Leads(s0, t, convert) && Inv(t, convert) && t.client.Write? && t.father.Await? && t.round == s.round
    ensures s.todo != [] && t.todo == s.todo[1..]
    ensures t.replies == s.replies + [Reply(s.todo[0], s.results, s.tidy)]
    ensures t.children == s.children && t.results == s.results && t.check == s.check
  {
    BusyTokens(s, convert);
    hide Inv, Leads;
    t := LeadsOn(s0, s, TheFather, convert);
    t := LeadsOn(s0, t, TheFather, convert);
    t := LeadsOn(s0, t, TheClient, convert);
    t := LeadsOn(s0, t, TheClient, convert);
  }

  /** The first round in which no child passes check: every child has converted the first request. */
  lemma FirstRoundServed(s: State, convert: Converter) returns (t: State)
    requires Init(s) && s.todo != []
    ensures Leads(s, t, convert) && Inv(t, convert) && t.father.CopyBack? && t.round == 1
    ensures t.client.Receive? && t.todo == s.todo && t.replies == []
    ensures t.check == |s.children| == |t.children| == |t.results|
    ensures forall j :: 0 <= j < |t.results| ==> t.results[j] == convert(s.todo[0], j)
  {
    InitInv(s, convert);
    LeadsSelf(s, convert);
    hide Inv, Leads;
    t := AskOnce(s, s, convert);
    t := LeadsOn(s, t, TheFather, convert);
    t := PostAll(s, t, convert);
    t := ServeAll(s, t, convert);
    QuietCounts(t, convert);
    t := GatherAll(s, t, convert);
    FirstResults(t, convert);
  }

  lemma FirstResults(t: State, convert: Converter)
    requires Inv(t, convert) && t.father.CopyBack? && t.round == 1
    ensures |t.results| == |t.children| && t.todo != []
    ensures forall j :: 0 <= j < |t.results| ==> t.results[j] == convert(t.todo[0], j)
  {
  }

  /**
   * For any number of children and any two requests there is a run in which the second round starts with every
   * child still to pass check.
   */
  lemma OverlapReachable(s: State, convert: Converter) returns (t: State)
    requires Init(s) && |s.todo| >= 2
    ensures Leads(s, t, convert) && Inv(t, convert) && t.father.Copy? && t.round == 2
    ensures t.check == |s.children| == |t.children| == |t.results| && t.client.Receive?
    ensures |t.replies| == 1 && t.replies[0].request == s.todo[0] && t.todo == s.todo[1..]
    ensures forall j :: 0 <= j < |t.results| ==> t.results[j] == convert(s.todo[0], j)
  {
    hide Inv, Leads, Init;
    t := FirstRoundServed(s, convert);
    t := AnswerOnce(s, t, convert);
    t := AskOnce(s, t, convert);
  }

  /** With all check tokens left over, every child is still to pass check. */
  lemma AllStillAway(s: State, convert: Converter)
    requires Inv(s, convert) && s.father.Copy? && s.check == |s.children|
    ensures forall j :: 0 <= j < |s.children| ==> s.children[j].Check?
  {
    CheckBetweenRounds(s, convert);
    AllAway(s.children);
  }

  /**
   * A client does read a wrong value: for two or more children, any two requests and any child v, some run answers
   * the second request with v's conversion of the first.
   */
  lemma StaleReply(s: State, v: nat, convert: Converter) returns (t: State)
    requires Init(s) && |s.todo| >= 2 && v < |s.children| && |s.children| >= 2
    ensures Leads(s, t, convert) && |t.replies| == 2 && t.replies[1].request == s.todo[1]
    ensures v < |t.replies[1].values| && t.replies[1].values[v] == convert(s.todo[0], v)
  {
    hide Inv, Leads, Init, Conversions, TidyRound, Answers, FirstRound;
    t := OverlapReachable(s, convert);
    AllStillAway(t, convert);
    t := LeadsOn(s, t, TheFather, convert);
    t := PostAll(s, t, convert);
    t := StarveChild(s, t, v, convert);
    QuietCounts(t, convert);
    t := GatherAll(s, t, convert);
    t := AnswerOnce(s, t, convert);
  }

  lemma IdleTokens(s: State, convert: Converter)
    requires Inv(s, convert) && s.father.Await? && s.client.Write?
    ensures s.cf == 0 && s.cp == 0
  {
  }

  lemma BusyTokens(s: State, convert: Converter)
    requires Inv(s, convert) && !s.father.Await?
    ensures s.cf == 0 && s.cp == 0 && s.client.Receive? && s.todo != [] && s.clientRequest == s.todo[0]
  {
  }
}
