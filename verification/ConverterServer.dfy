/**
 * The converter server: a father hands each client request to its n children through one shared segment and three
 * semaphores, collects their results and answers. Clients come one after the other. A step is one semaphore
 * operation, one copy between the segments, one conversion or one loop test.
 */
module ConverterServer {
  import opened Sums

  datatype Request = Request(devise: string, montant: real)

  /** How child i, with its own currency, converts a request. */
  type Converter = (Request, nat) -> real

  datatype Father = Await | Copy | Scatter(i: nat) | Gather(i: nat) | Release(i: nat) | CopyBack | Answer

  datatype Child = Wait | Convert | Post | Check

  datatype Client = Write | Send | Receive | Read

  /** A request with the answer its client read; `tidy` records that the request was copied with check at 0. */
  datatype Reply = Reply(request: Request, values: seq<real>, tidy: bool)

  datatype State = State(
    father: Father, children: seq<Child>, client: Client,
    f: int, p: int, check: int,           // mutexf, mutexp and check of the inner segment
    cf: int, cp: int,                     // mutexf and mutexp of the client segment
    clientRequest: Request, clientResults: seq<real>,
    request: Request, results: seq<real>,
    todo: seq<Request>, replies: seq<Reply>,
    round: nat, tidy: bool, done: seq<int>)  // history: the round, and conversions per child in it

  datatype Actor = TheFather | TheClient | TheChild(j: nat)

  ghost predicate Init(s: State) {
    && s.father == Await && s.client == Write && (forall j :: 0 <= j < |s.children| ==> s.children[j].Wait?)
    && s.f == 0 && s.p == 0 && s.check == 0 && s.cf == 0 && s.cp == 0
    && |s.results| == |s.children| && s.done == seq(|s.children|, _ => 0)
    && s.replies == [] && s.round == 0
  }

  predicate Enabled(s: State, a: Actor) {
    match a
    case TheFather =>
      (s.father.Await? ==> s.cf > 0) && (s.father.Gather? && s.father.i != |s.children| ==> s.p > 0)
    case TheClient => (s.client.Write? ==> s.todo != []) && (s.client.Receive? ==> s.cp > 0)
    case TheChild(j) =>
      && j < |s.children|
      && (s.children[j].Wait? ==> s.f > 0) && (s.children[j].Check? ==> s.check > 0)
  }

  function FatherDo(s: State): State
    requires Enabled(s, TheFather)
  {
    var n := |s.children|;
    match s.father
    case Await => s.(father := Copy, cf := s.cf - 1, round := s.round + 1)
    case Copy => s.(father := Scatter(0), request := s.clientRequest, tidy := s.check == 0, done := seq(n, _ => 0))
    case Scatter(i) => if i != n then s.(father := Scatter(i + 1), f := s.f + 1) else s.(father := Gather(0))
    case Gather(i) => if i != n then s.(father := Gather(i + 1), p := s.p - 1) else s.(father := Release(0))
    case Release(i) => if i != n then s.(father := Release(i + 1), check := s.check + 1) else s.(father := CopyBack)
    case CopyBack => s.(father := Answer, clientResults := s.results)
    case Answer => s.(father := Await, cp := s.cp + 1)
  }

  function ChildDo(s: State, j: nat, convert: Converter): State
    requires Enabled(s, TheChild(j)) && |s.results| == |s.done| == |s.children|
  {
    match s.children[j]
    case Wait => s.(children := s.children[j := Convert], f := s.f - 1)
    case Convert =>
      s.(children := s.children[j := Post],
         results := s.results[j := convert(s.request, j)],
         done := s.done[j := s.done[j] + 1])
    case Post => s.(children := s.children[j := Check], p := s.p + 1)
    case Check => s.(children := s.children[j := Wait], check := s.check - 1)
  }

  function ClientDo(s: State): State
    requires Enabled(s, TheClient)
  {
    match s.client
    case Write => s.(client := Send, clientRequest := s.todo[0])
    case Send => s.(client := Receive, cf := s.cf + 1)
    case Receive => s.(client := Read, cp := s.cp - 1)
    case Read =>
      s.(client := Write,
         replies := s.replies + [Reply(s.clientRequest, s.clientResults, s.tidy)],
         todo := if s.todo == [] then [] else s.todo[1..])
  }

  predicate Sized(s: State) {
    |s.results| == |s.children| && |s.done| == |s.children|
  }

  function Do(s: State, a: Actor, convert: Converter): State
    requires Sized(s) && Enabled(s, a)
  {
    match a
    case TheFather => FatherDo(s)
    case TheClient => ClientDo(s)
    case TheChild(j) => ChildDo(s, j, convert)
  }

  ghost predicate Step(s: State, t: State, convert: Converter) {
    exists a :: Sized(s) && Enabled(s, a) && t == Do(s, a, convert)
  }

  /** A path: states connected by steps of any of the processes. */
  ghost predicate Path(r: seq<State>, convert: Converter) {
    r != [] && forall k :: 0 <= k < |r| - 1 ==> Step(r[k], r[k + 1], convert)
  }

  ghost predicate IsRun(r: seq<State>, convert: Converter) {
    Path(r, convert) && Init(r[0])
  }

  // ----- the invariant -----

  /** Work tokens posted in the current round. */
  function Posted(s: State): nat {
    match s.father
    case Await => 0
    case Copy => 0
    case Scatter(i) => i
    case _ => |s.children|
  }

  /** Completions collected in the current round. */
  function Gathered(s: State): nat {
    match s.father
    case Await => 0
    case Copy => 0
    case Scatter(_) => 0
    case Gather(i) => i
    case _ => |s.children|
  }

  /** Children released in the current round. */
  function Released(s: State): nat {
    match s.father
    case Release(i) => i
    case CopyBack => |s.children|
    case Answer => |s.children|
    case _ => 0
  }

  predicate InRange(s: State) {
    match s.father
    case Scatter(i) => i <= |s.children|
    case Gather(i) => i <= |s.children|
    case Release(i) => i <= |s.children|
    case _ => true
  }

  /** A child that has taken work and not yet announced its completion. */
  function Working(c: Child): int { if c.Convert? || c.Post? then 1 else 0 }

  function Converting(c: Child): int { if c.Convert? then 1 else 0 }

  function Away(c: Child): int { if c.Wait? then 0 else 1 }

  function Count(k: int): int { k }

  /** Exclusion: work tokens + children at work + completions pending + completions collected = work posted. */
  ghost predicate Exclusion(s: State) {
    && s.f >= 0 && s.p >= 0
    && s.f + Sum(s.children, Working) + s.p + Gathered(s) == Posted(s)
  }

  /** The check barrier: children not back at work = check tokens + children at or past this round's conversion - releases. */
  ghost predicate Barrier(s: State) {
    && s.check >= 0
    && Sum(s.children, Away) == s.check + Posted(s) - s.f - Released(s)
  }

  /** One request at a time is on its way through the server. */
  ghost predicate OneClient(s: State) {
    && s.cf >= 0 && s.cp >= 0
    && s.cf + s.cp + (if s.father.Await? then 0 else 1) == (if s.client.Receive? then 1 else 0)
    && (!s.client.Write? ==> s.todo != [] && s.clientRequest == s.todo[0])
  }

  /** The conversions of the round: as many as tokens taken and used; they are conversions of the round's request. */
  ghost predicate Conversions(s: State, convert: Converter) {
    && Sized(s)
    && (forall j :: 0 <= j < |s.done| ==> s.done[j] >= 0)
    && (!s.father.Await? && !s.father.Copy? ==>
          && s.request == s.clientRequest
          && Sum(s.done, Count) == Posted(s) - s.f - Sum(s.children, Converting)
          && forall j :: 0 <= j < |s.done| && s.done[j] > 0 ==> s.results[j] == convert(s.request, j))
  }

  /** In a tidy round no child passes check before the father releases it. */
  ghost predicate TidyRound(s: State)
    requires Sized(s)
  {
    s.tidy ==>
      match s.father
      case Await => true
      case Copy => true
      case Scatter(_) => s.check == 0 && forall j :: 0 <= j < |s.done| ==>
        s.done[j] == if s.children[j].Wait? || s.children[j].Convert? then 0 else 1
      case Gather(_) => s.check == 0 && forall j :: 0 <= j < |s.done| ==>
        s.done[j] == if s.children[j].Wait? || s.children[j].Convert? then 0 else 1
      case _ => forall j :: 0 <= j < |s.done| ==> s.done[j] == 1
  }

  ghost predicate Complete(values: seq<real>, request: Request, n: nat, convert: Converter) {
    |values| == n && forall j :: 0 <= j < n ==> values[j] == convert(request, j)
  }

  /** The answers of tidy rounds are complete, on their way to the client and in its hands. */
  ghost predicate Answers(s: State, convert: Converter) {
    && (s.tidy && (s.father.Answer? || s.cp > 0 || s.client.Read?) ==>
          Complete(s.clientResults, s.clientRequest, |s.children|, convert))
    && (forall k :: 0 <= k < |s.replies| && s.replies[k].tidy ==>
          Complete(s.replies[k].values, s.replies[k].request, |s.children|, convert))
  }

  /** A request has been taken and its answer not yet read. */
  predicate Busy(s: State) {
    !s.father.Await? || s.cp > 0 || s.client.Read?
  }

  /** The first round is tidy. */
  ghost predicate FirstRound(s: State) {
    && s.round == |s.replies| + (if Busy(s) then 1 else 0)
    && (s.round == 0 || (s.round == 1 && s.father.Copy?) ==> s.check == 0)
    && (s.round == 1 && !s.father.Copy? ==> s.tidy)
    && (|s.replies| > 0 ==> s.replies[0].tidy)
  }

  ghost predicate Inv(s: State, convert: Converter) {
    && InRange(s) && Exclusion(s) && Barrier(s) && OneClient(s)
    && Conversions(s, convert) && TidyRound(s) && Answers(s, convert) && FirstRound(s)
  }

  lemma WorkSigns(cs: seq<Child>)
    ensures 0 <= Sum(cs, Converting) <= Sum(cs, Working) <= Sum(cs, Away) <= |cs|
  {
    if cs != [] {
      WorkSigns(cs[1..]);
    }
  }

  lemma ChildSums(s: State, j: nat, c: Child)
    requires j < |s.children|
    ensures Sum(s.children[j := c], Working) == Sum(s.children, Working) - Working(s.children[j]) + Working(c)
    ensures Sum(s.children[j := c], Converting) == Sum(s.children, Converting) - Converting(s.children[j]) + Converting(c)
    ensures Sum(s.children[j := c], Away) == Sum(s.children, Away) - Away(s.children[j]) + Away(c)
  {
    SumUpdate(s.children, j, c, Working);
    SumUpdate(s.children, j, c, Converting);
    SumUpdate(s.children, j, c, Away);
  }

  lemma {:induction false} SumZeros(n: nat)
    ensures Sum(seq(n, _ => 0), Count) == 0
  {
    if n > 0 {
      assert seq(n, _ => 0)[1..] == seq(n - 1, _ => 0);
      SumZeros(n - 1);
    }
  }

  lemma FatherCounts(s: State, convert: Converter)
    requires Inv(s, convert) && Enabled(s, TheFather)
    ensures var t := FatherDo(s);
            InRange(t) && Exclusion(t) && Barrier(t) && OneClient(t) && FirstRound(t)
  {
    WorkSigns(s.children);
    hide Sum, Conversions, Answers, TidyRound;
  }

  lemma FatherConversions(s: State, convert: Converter)
    requires Inv(s, convert) && Enabled(s, TheFather)
    ensures Conversions(FatherDo(s), convert) && Sized(FatherDo(s))
  {
    WorkSigns(s.children);
    SumZeros(|s.children|);
    hide Sum, Answers, TidyRound, FirstRound, Barrier;
  }

  /** When the father has collected n completions, every child is past its conversion and none is at work. */
  lemma AllGathered(s: State, convert: Converter)
    requires Inv(s, convert) && s.father == Gather(|s.children|)
    ensures s.f == 0 && s.p == 0 && forall j :: 0 <= j < |s.children| ==> s.children[j].Wait? || s.children[j].Check?
    ensures s.tidy ==> forall j :: 0 <= j < |s.children| ==> s.children[j].Check?
  {
    SumNonNegative(s.children, Working);
    SumZero(s.children, Working);
    if s.tidy {
      assert Sum(s.children, Away) == |s.children|;
      AllAway(s.children);
    }
    forall j | 0 <= j < |s.children| ensures s.children[j].Wait? || s.children[j].Check? {
      assert Working(s.children[j]) == 0;
    }
  }

  lemma {:induction false} AllAway(cs: seq<Child>)
    requires Sum(cs, Away) == |cs|
    ensures forall j :: 0 <= j < |cs| ==> !cs[j].Wait?
  {
    if cs != [] {
      WorkSigns(cs[1..]);
      AllAway(cs[1..]);
    }
  }

  lemma AllWaiting(s: State, convert: Converter)
    requires Inv(s, convert) && (s.father.Await? || s.father.Copy?) && s.check == 0
    ensures forall j :: 0 <= j < |s.children| ==> s.children[j].Wait?
  {
    WorkSigns(s.children);
    SumZero(s.children, Away);
    forall j | 0 <= j < |s.children| ensures s.children[j].Wait? {
      assert Away(s.children[j]) == 0;
    }
  }

  lemma FatherTidy(s: State, convert: Converter)
    requires Inv(s, convert) && Enabled(s, TheFather)
    ensures Sized(FatherDo(s)) && TidyRound(FatherDo(s))
  {
    if s.father.Copy? && s.check == 0 {
      AllWaiting(s, convert);
    }
    if s.father == Gather(|s.children|) {
      AllGathered(s, convert);
    }
    hide Sum, Answers, FirstRound, OneClient, Exclusion;
  }

  lemma FatherAnswers(s: State, convert: Converter)
    requires Inv(s, convert) && Enabled(s, TheFather)
    ensures Answers(FatherDo(s), convert)
  {
    hide Sum, FirstRound, Exclusion, Barrier;
  }

  /** A child's step leaves the father's counts of the round as they are. */
  lemma ChildFrame(s: State, j: nat, convert: Converter)
    requires Sized(s) && Enabled(s, TheChild(j))
    ensures var t := ChildDo(s, j, convert);
            && Posted(t) == Posted(s) && Gathered(t) == Gathered(s) && Released(t) == Released(s)
            && |t.children| == |s.children| && t.children == s.children[j := t.children[j]]
            && (InRange(s) ==> InRange(t))
            && s.f - t.f == (if s.children[j].Wait? then 1 else 0)
            && t.p - s.p == (if s.children[j].Post? then 1 else 0)
            && s.check - t.check == (if s.children[j].Check? then 1 else 0)
            && t.children[j] == match s.children[j]
                                case Wait => Convert case Convert => Post case Post => Check case Check => Wait
  {
  }

  lemma ChildCounts(s: State, j: nat, convert: Converter)
    requires Inv(s, convert) && Enabled(s, TheChild(j))
    ensures var t := ChildDo(s, j, convert);
            InRange(t) && Exclusion(t) && Barrier(t)
  {
    hide ChildDo, Sum, Posted, Gathered, Released, InRange, Answers, TidyRound, FirstRound, OneClient;
    ChildFrame(s, j, convert);
    ChildSums(s, j, ChildDo(s, j, convert).children[j]);
  }

  lemma ChildClient(s: State, j: nat, convert: Converter)
    requires Inv(s, convert) && Enabled(s, TheChild(j))
    ensures OneClient(ChildDo(s, j, convert)) && FirstRound(ChildDo(s, j, convert))
  {
    hide Sum, Conversions, Answers, TidyRound, Exclusion;
  }

  /** A child at work finds the father between its posts and its copy back. */
  lemma AtWork(s: State, j: nat, convert: Converter)
    requires Inv(s, convert) && j < |s.children| && Working(s.children[j]) == 1
    ensures s.father.Scatter? || s.father.Gather?
  {
    SumAtLeast(s.children, j, Working);
    hide Sum, Conversions, Answers, TidyRound, FirstRound, Barrier, OneClient;
  }

  lemma ChildConversions(s: State, j: nat, convert: Converter)
    requires Inv(s, convert) && Enabled(s, TheChild(j))
    ensures Sized(ChildDo(s, j, convert)) && Conversions(ChildDo(s, j, convert), convert)
  {
    ChildSums(s, j, ChildDo(s, j, convert).children[j]);
    SumUpdate(s.done, j, ChildDo(s, j, convert).done[j], Count);
    if Working(s.children[j]) == 1 {
      AtWork(s, j, convert);
    }
    hide Sum, Answers, TidyRound, FirstRound, Barrier;
  }

  lemma ChildTidy(s: State, j: nat, convert: Converter)
    requires Inv(s, convert) && Enabled(s, TheChild(j))
    ensures Sized(ChildDo(s, j, convert)) && TidyRound(ChildDo(s, j, convert))
  {
    if Working(s.children[j]) == 1 {
      AtWork(s, j, convert);
    }
    hide Sum, Answers, FirstRound, Barrier, OneClient;
  }

  lemma ChildAnswers(s: State, j: nat, convert: Converter)
    requires Inv(s, convert) && Enabled(s, TheChild(j))
    ensures Answers(ChildDo(s, j, convert), convert)
  {
    hide Sum, FirstRound, Exclusion, Barrier;
  }

  lemma ClientCounts(s: State, convert: Converter)
    requires Inv(s, convert) && Enabled(s, TheClient)
    ensures var t := ClientDo(s);
            InRange(t) && Exclusion(t) && Barrier(t) && OneClient(t) && FirstRound(t)
  {
    hide Sum, Conversions, Answers, TidyRound;
  }

  lemma ClientData(s: State, convert: Converter)
    requires Inv(s, convert) && Enabled(s, TheClient)
    ensures Sized(ClientDo(s)) && Conversions(ClientDo(s), convert) && TidyRound(ClientDo(s)) && Answers(ClientDo(s), convert)
  {
    hide Sum, FirstRound, Exclusion, Barrier;
  }

  /** Every step of every process keeps the invariant. */
  lemma StepKeepsInv(s: State, t: State, convert: Converter)
    requires Inv(s, convert) && Step(s, t, convert)
    ensures Inv(t, convert)
  {
    hide FatherDo, ChildDo, ClientDo;
    hide InRange, Exclusion, Barrier, OneClient, Conversions, TidyRound, Answers, FirstRound;
    var a :| Sized(s) && Enabled(s, a) && t == Do(s, a, convert);
    match a
    case TheFather =>
      FatherCounts(s, convert);
      FatherConversions(s, convert);
      FatherTidy(s, convert);
      FatherAnswers(s, convert);
    case TheClient =>
      ClientCounts(s, convert);
      ClientData(s, convert);
    case TheChild(j) =>
      ChildCounts(s, j, convert);
      ChildClient(s, j, convert);
      ChildConversions(s, j, convert);
      ChildTidy(s, j, convert);
      ChildAnswers(s, j, convert);
  }

  lemma {:induction false} SumAllWait(cs: seq<Child>)
    requires forall j :: 0 <= j < |cs| ==> cs[j].Wait?
    ensures Sum(cs, Working) == Sum(cs, Converting) == Sum(cs, Away) == 0
  {
    if cs != [] {
      SumAllWait(cs[1..]);
    }
  }

  lemma InitInv(s: State, convert: Converter)
    requires Init(s)
    ensures Inv(s, convert)
  {
    SumAllWait(s.children);
  }

  /** The invariant holds in every state of every run, over any number of rounds. */
  lemma {:induction false} RunInv(r: seq<State>, k: nat, convert: Converter)
    requires IsRun(r, convert) && k < |r|
    ensures Inv(r[k], convert)
  {
    if k == 0 {
      InitInv(r[0], convert);
    } else {
      RunInv(r, k - 1, convert);
      StepKeepsInv(r[k - 1], r[k], convert);
    }
  }

  // ----- what the invariant says -----

  /** No child is converting while the father overwrites the request or copies the results, in any round. */
  lemma NobodyConverts(s: State, j: nat, convert: Converter)
    requires Inv(s, convert) && j < |s.children|
    requires s.father.Await? || s.father.Copy? || s.father.Release? || s.father.CopyBack? || s.father.Answer?
    ensures !s.children[j].Convert? && !s.children[j].Post? && s.f == 0 && s.p == 0
  {
    SumNonNegative(s.children, Working);
    SumAtLeast(s.children, j, Working);
  }

  /** Between rounds the check value is the number of children still to pass it. */
  lemma CheckBetweenRounds(s: State, convert: Converter)
    requires Inv(s, convert) && (s.father.Await? || s.father.Copy?)
    ensures s.check == Sum(s.children, Away)
    ensures forall j :: 0 <= j < |s.children| ==> s.children[j].Wait? || s.children[j].Check?
  {
    SumNonNegative(s.children, Working);
    forall j: nat | j < |s.children| ensures s.children[j].Wait? || s.children[j].Check? {
      NobodyConverts(s, j, convert);
    }
  }

  /** In every round, tidy or not, the father copies back after exactly one conversion per child on average. */
  lemma ConversionsPerRound(s: State, convert: Converter)
    requires Inv(s, convert) && (s.father.Release? || s.father.CopyBack? || s.father.Answer?)
    ensures Sum(s.done, Count) == |s.children|
  {
    WorkSigns(s.children);
  }

  /** The client of a round that started with check at 0, in particular the first, reads every child's conversion. */
  lemma TidyRepliesComplete(r: seq<State>, k: nat, m: nat, convert: Converter)
    requires IsRun(r, convert) && k < |r| && m < |r[k].replies| && (m == 0 || r[k].replies[m].tidy)
    ensures Complete(r[k].replies[m].values, r[k].replies[m].request, |r[k].children|, convert)
  {
    RunInv(r, k, convert);
  }

  // ----- every request is answered once, in order -----

  ghost function Requests(rs: seq<Reply>): (q: seq<Request>)
    ensures |q| == |rs|
  {
    seq(|rs|, k requires 0 <= k < |rs| => rs[k].request)
  }

  lemma StepRequests(s: State, t: State, convert: Converter)
    requires Inv(s, convert) && Step(s, t, convert)
    ensures Requests(t.replies) + t.todo == Requests(s.replies) + s.todo && |t.children| == |s.children|
  {
    hide Exclusion, Barrier, Conversions, TidyRound, Answers, FirstRound;
    var a :| Sized(s) && Enabled(s, a) && t == Do(s, a, convert);
    if a == TheClient && s.client.Read? {
      assert s.todo == [s.todo[0]] + s.todo[1..];
      assert Requests(t.replies) == Requests(s.replies) + [s.todo[0]];
    }
  }

  /** The requests answered are the first of the requests made, in their order. */
  lemma {:induction false} RunRequests(r: seq<State>, k: nat, convert: Converter)
    requires IsRun(r, convert) && k < |r|
    ensures Requests(r[k].replies) + r[k].todo == r[0].todo && |r[k].children| == |r[0].children|
  {
    hide Inv, Step, Requests;
    if k > 0 {
      RunRequests(r, k - 1, convert);
      RunInv(r, k - 1, convert);
      StepRequests(r[k - 1], r[k], convert);
    } else {
      NoReplies(r[0]);
    }
  }

  lemma NoReplies(s: State)
    requires Init(s)
    ensures Requests(s.replies) == []
  {
  }

  // ----- progress -----

  ghost predicate Stuck(s: State) {
    forall a :: !Enabled(s, a)
  }

  /** A system in which nobody can move has answered every request, however the rounds overlapped on check. */
  lemma StuckMeansServed(s: State, convert: Converter)
    requires Inv(s, convert) && Stuck(s)
    ensures s.client.Write? && s.todo == [] && s.father.Await?
  {
    assert !Enabled(s, TheFather);
    assert !Enabled(s, TheClient);
    if s.father.Gather? {
      GatherProgress(s, convert);
    }
    hide Exclusion, Barrier, Conversions, TidyRound, Answers, FirstRound, Sum;
  }

  /** While completions are missing, some child can move. */
  lemma GatherProgress(s: State, convert: Converter)
    requires Inv(s, convert) && s.father.Gather? && s.father.i != |s.children| && s.p <= 0
    ensures exists j: nat :: Enabled(s, TheChild(j))
  {
    if Sum(s.children, Working) > 0 {
      var j := SumWitness(s.children, Working);
      assert Enabled(s, TheChild(j));
    } else {
      SumNonNegative(s.children, Working);
      if Sum(s.children, Away) == |s.children| {
        AllAway(s.children);
        SumZero(s.children, Working);
        assert Working(s.children[0]) == 0;
        assert Enabled(s, TheChild(0));
      } else {
        var j := SomeWaiting(s.children);
        assert Enabled(s, TheChild(j));
      }
    }
  }

  lemma {:induction false} SomeWaiting(cs: seq<Child>) returns (j: nat)
    requires Sum(cs, Away) != |cs|
    ensures j < |cs| && cs[j].Wait?
  {
    if cs[0].Wait? {
      j := 0;
    } else {
      j := SomeWaiting(cs[1..]);
      j := j + 1;
    }
  }

  function FatherWork(father: Father, n: int): int {
    match father
    case Await => 0
    case Answer => 1
    case CopyBack => 2
    case Release(i) => 3 + 2 * (n - i)
    case Gather(i) => 4 + 2 * n + (n - i)
    case Scatter(i) => 5 + 3 * n + 4 * (n - i)
    case Copy => 6 + 7 * n
  }

  function ClientWork(client: Client, n: int): int {
    match client
    case Write => 10 + 7 * n
    case Send => 9 + 7 * n
    case Receive => 1
    case Read => 0
  }

  function ChildWork(c: Child): int {
    match c
    case Wait => 0
    case Convert => 2
    case Post => 1
    case Check => 0
  }

  /** k * m, for the solver's sake by repeated addition. */
  function Times(k: nat, m: nat): nat {
    if m == 0 then 0 else k + Times(k, m - 1)
  }

  /** The work left: what the processes and the tokens still have to do, and the requests still to make. */
  ghost function Work(s: State): int {
    var n := |s.children|;
    FatherWork(s.father, n) + ClientWork(s.client, n) + Sum(s.children, ChildWork)
    + 3 * s.f + s.check + (if s.cf > 0 then 7 + 7 * n else 0) + Times(11 + 7 * n, |s.todo|)
  }

  /** Every step of any process in any round uses up some of the work left. */
  lemma StepWorks(s: State, t: State, convert: Converter)
    requires Inv(s, convert) && Step(s, t, convert)
    ensures Work(t) < Work(s) && Work(t) >= 0
  {
    hide Inv, Work, FatherDo, ClientDo, ChildDo, Enabled;
    StepKeepsInv(s, t, convert);
    WorkNonNegative(t, convert);
    var a :| Sized(s) && Enabled(s, a) && t == Do(s, a, convert);
    match a
    case TheFather =>
      FatherWorks(s, convert);
    case TheClient =>
      ClientWorks(s, convert);
    case TheChild(j) =>
      ChildWorks(s, j, convert);
  }

  lemma ChildWorks(s: State, j: nat, convert: Converter)
    requires Sized(s) && Enabled(s, TheChild(j))
    ensures Work(ChildDo(s, j, convert)) < Work(s)
  {
    hide Sum, FatherWork, ClientWork, Times;
    SumUpdate(s.children, j, ChildDo(s, j, convert).children[j], ChildWork);
  }

  lemma FatherWorks(s: State, convert: Converter)
    requires Inv(s, convert) && Enabled(s, TheFather)
    ensures Work(FatherDo(s)) < Work(s)
  {
    hide Exclusion, Barrier, Conversions, TidyRound, Answers, FirstRound, Sum, Times, ClientWork;
    if s.father.Await? {
      assert s.cf == 1;
    }
  }

  lemma ClientWorks(s: State, convert: Converter)
    requires Inv(s, convert) && Enabled(s, TheClient)
    ensures Work(ClientDo(s)) < Work(s)
  {
    hide Exclusion, Barrier, Conversions, TidyRound, Answers, FirstRound, Sum;
    if s.client.Send? {
      assert s.cf == 0;
    }
  }

  lemma WorkNonNegative(s: State, convert: Converter)
    requires Inv(s, convert)
    ensures Work(s) >= 0
  {
    SumNonNegative(s.children, ChildWork);
    hide Conversions, TidyRound, Answers, FirstRound, Sum;
  }

  /** Every run is finite: under every schedule it takes at most Work(r[0]) steps. */
  lemma {:induction false} RunBounded(r: seq<State>, k: nat, convert: Converter)
    requires IsRun(r, convert) && k < |r|
    ensures k + Work(r[k]) <= Work(r[0])
  {
    hide Inv, Step, Work;
    if k > 0 {
      RunBounded(r, k - 1, convert);
      RunInv(r, k - 1, convert);
      StepWorks(r[k - 1], r[k], convert);
    }
  }

  /** A run that cannot go on has answered every request made, in order. */
  lemma AllServed(r: seq<State>, convert: Converter)
    requires IsRun(r, convert) && Stuck(r[|r| - 1])
    ensures Requests(r[|r| - 1].replies) == r[0].todo
  {
    RunInv(r, |r| - 1, convert);
    StuckMeansServed(r[|r| - 1], convert);
    RunRequests(r, |r| - 1, convert);
  }
}
