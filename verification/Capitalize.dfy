/**
 * The one-slot handoff between a process that reads words and a process that prints them in capitals, under two
 * semaphores. The printer reads the shared slot character by character, one step each.
 */
module Capitalize {

  const LIMIT := 1024

  datatype Reader = WaitFree | Scan | PostFull

  datatype Printer = WaitFull | Print(i: nat) | PostFree

  datatype State = State(
    reader: Reader, printer: Printer, free: int, full: int,  // smutexf and smutexp
    slot: string, scans: nat, line: string, out: seq<string>)

  datatype Actor = TheReader | ThePrinter

  function Upper(c: char): char {
    if 'a' <= c <= 'z' then c - 'a' + 'A' else c
  }

  function UpperAll(s: string): (t: string)
    ensures |t| == |s|
  {
    seq(|s|, k requires 0 <= k < |s| => Upper(s[k]))
  }

  function Cut(s: string): string {
    if |s| <= LIMIT then s else s[..LIMIT]
  }

  /** What the slot holds after k scans: the k-th word, cut, or at the end of the input what it held before. */
  function Held(words: seq<string>, k: nat): string {
    if k == 0 || words == [] then "" else Cut(if k <= |words| then words[k - 1] else words[|words| - 1])
  }

  ghost predicate Init(s: State) {
    s == State(WaitFree, WaitFull, 1, 0, "", 0, "", [])
  }

  predicate Enabled(s: State, a: Actor) {
    match a
    case TheReader => s.reader.WaitFree? ==> s.free > 0
    case ThePrinter => s.printer.WaitFull? ==> s.full > 0
  }

  /** The index at which a NUL is stored: + binds tighter than ?:, so the sum is only the condition. */
  function TerminatorIndex(scanned: int, length: nat): int {
    if scanned + (if length > LIMIT then 1 else 0) != 0 then LIMIT else length - 1
  }

  function Terminate(s: string, index: int): string {
    if 0 <= index < |s| then s[..index] else s
  }

  /** scanf stores the next word and returns 1, or stores nothing and returns -1 at the end of the input. */
  function Scanned(slot: string, words: seq<string>, k: nat): string {
    if k < |words| then Terminate(words[k], TerminatorIndex(1, |words[k]|))
    else Terminate(slot, TerminatorIndex(-1, |slot|))
  }

  function Do(s: State, a: Actor, words: seq<string>): State
    requires Enabled(s, a)
  {
    match a
    case TheReader =>
      (match s.reader
       case WaitFree => s.(reader := Scan, free := s.free - 1)
       case Scan => s.(reader := PostFull, slot := Scanned(s.slot, words, s.scans), scans := s.scans + 1)
       case PostFull => s.(reader := WaitFree, full := s.full + 1))
    case ThePrinter =>
      (match s.printer
       case WaitFull => s.(printer := Print(0), full := s.full - 1, line := "")
       case Print(i) =>
         if i < |s.slot| then s.(printer := Print(i + 1), line := s.line + [Upper(s.slot[i])])
         else s.(printer := PostFree, out := s.out + [s.line])
       case PostFree => s.(printer := WaitFull, free := s.free + 1))
  }

  ghost predicate Step(s: State, t: State, words: seq<string>) {
    exists a :: Enabled(s, a) && t == Do(s, a, words)
  }

  ghost predicate IsRun(r: seq<State>, words: seq<string>) {
    r != [] && Init(r[0]) && forall k :: 0 <= k < |r| - 1 ==> Step(r[k], r[k + 1], words)
  }

  function Reading(s: State): nat { if s.reader.WaitFree? then 0 else 1 }

  function Printing(s: State): nat { if s.printer.WaitFull? then 0 else 1 }

  /** One token in all; every scan is printed once, in order, except the one under way; no line is torn. */
  ghost predicate Inv(s: State, words: seq<string>) {
    && s.free >= 0 && s.full >= 0 && s.free + s.full + Reading(s) + Printing(s) == 1
    && s.scans == |s.out| + s.full + (if s.reader.PostFull? then 1 else 0) + (if s.printer.Print? then 1 else 0)
    && s.slot == Held(words, s.scans)
    && (s.printer.Print? ==> s.printer.i <= |s.slot| && s.line == UpperAll(s.slot)[..s.printer.i])
    && forall k :: 0 <= k < |s.out| ==> s.out[k] == UpperAll(Held(words, k + 1))
  }

  /** The stored NUL always cuts the slot to 1024 characters, at the end of the input too. */
  lemma HeldNext(words: seq<string>, k: nat)
    ensures Scanned(Held(words, k), words, k) == Held(words, k + 1)
  {
  }

  lemma StepKeepsInv(s: State, t: State, words: seq<string>)
    requires Inv(s, words) && Step(s, t, words)
    ensures Inv(t, words)
  {
    HeldNext(words, s.scans);
    hide Held, Scanned, Cut, Upper, Terminate, TerminatorIndex;
    var a :| Enabled(s, a) && t == Do(s, a, words);
    if a == ThePrinter && s.printer.Print? && s.printer.i < |s.slot| {
      assert UpperAll(s.slot)[..s.printer.i + 1] == UpperAll(s.slot)[..s.printer.i] + [Upper(s.slot[s.printer.i])];
    }
  }

  lemma {:induction false} RunInv(r: seq<State>, k: nat, words: seq<string>)
    requires IsRun(r, words) && k < |r|
    ensures Inv(r[k], words)
  {
    if k > 0 {
      RunInv(r, k - 1, words);
      StepKeepsInv(r[k - 1], r[k], words);
    }
  }

  /** line is the word, cut to 1024 characters, its letters a to z as capitals and all else unchanged. */
  predicate CapitalsOf(word: string, line: string) {
    && |line| == (if |word| < 1024 then |word| else 1024)
    && forall d :: 0 <= d < |line| ==>
         && !('a' <= line[d] <= 'z')
         && if 'a' <= word[d] <= 'z'
            then 'A' <= line[d] <= 'Z' && line[d] as int - 'A' as int == word[d] as int - 'a' as int
            else line[d] == word[d]
  }

  lemma UpperExactly(word: string)
    ensures CapitalsOf(word, UpperAll(Cut(word)))
  {
  }

  /**
   * In every interleaving the lines printed are the words read, in order, each once, cut to 1024 characters and in
   * capitals; behind the last word of the input that word is printed again and again.
   */
  lemma PrintsInOrder(r: seq<State>, n: nat, k: nat, words: seq<string>)
    requires IsRun(r, words) && n < |r| && k < |r[n].out|
    ensures words != [] ==> CapitalsOf(if k < |words| then words[k] else words[|words| - 1], r[n].out[k])
    ensures words == [] ==> r[n].out[k] == ""
  {
    RunInv(r, n, words);
    if words != [] {
      UpperExactly(if k < |words| then words[k] else words[|words| - 1]);
    }
  }

  /** The two processes never use the slot at the same time, and one of them can always go on. */
  lemma AlternateForever(r: seq<State>, n: nat, words: seq<string>)
    requires IsRun(r, words) && n < |r|
    ensures !(Reading(r[n]) == 1 && Printing(r[n]) == 1)
    ensures Enabled(r[n], TheReader) || Enabled(r[n], ThePrinter)
  {
    RunInv(r, n, words);
  }
}
