// task14.c: two threads, two semaphores. The abstract machine behind both monitor versions.
module SemaphorePingPong {

  // AtWait: at sem_wait, or finished. Printing: past sem_wait. Posting: has printed.
  datatype Phase = AtWait | Printing | Posting

  datatype Player = Player(rounds: nat, phase: Phase)

  datatype State = State(sem0: nat, sem1: nat, ping: Player, pong: Player, out: string)

  datatype Event = WaitPing | PrintPing | PostPing | WaitPong | PrintPong | PostPong

  predicate Enabled(s: State, e: Event) {
    match e
    case WaitPing => s.ping.phase == AtWait && s.ping.rounds > 0 && s.sem0 > 0
    case PrintPing => s.ping.phase == Printing
    case PostPing => s.ping.phase == Posting && s.ping.rounds > 0
    case WaitPong => s.pong.phase == AtWait && s.pong.rounds > 0 && s.sem1 > 0
    case PrintPong => s.pong.phase == Printing
    case PostPong => s.pong.phase == Posting && s.pong.rounds > 0
  }

  function Apply(s: State, e: Event): State
    requires Enabled(s, e)
  {
    match e
    case WaitPing => s.(sem0 := s.sem0 - 1, ping := s.ping.(phase := Printing))
    case PrintPing => s.(out := s.out + "+", ping := s.ping.(phase := Posting))
    case PostPing => s.(sem1 := s.sem1 + 1, ping := Player(s.ping.rounds - 1, AtWait))
    case WaitPong => s.(sem1 := s.sem1 - 1, pong := s.pong.(phase := Printing))
    case PrintPong => s.(out := s.out + "-", pong := s.pong.(phase := Posting))
    case PostPong => s.(sem0 := s.sem0 + 1, pong := Player(s.pong.rounds - 1, AtWait))
  }

  function Initial(n: nat): State {
    State(1, 0, Player(n, AtWait), Player(n, AtWait), "")
  }

  predicate Legal(s: State, es: seq<Event>)
    decreases |es|
  {
    |es| > 0 ==> Enabled(s, es[0]) && Legal(Apply(s, es[0]), es[1..])
  }

  function After(s: State, es: seq<Event>): State
    requires Legal(s, es)
    decreases |es|
  {
    if |es| == 0 then s else After(Apply(s, es[0]), es[1..])
  }

  // The first k characters of + - + - ...
  function Alternating(k: nat): string {
    if k == 0 then "" else Alternating(k - 1) + (if k % 2 == 1 then "+" else "-")
  }

  lemma {:induction false} AlternatingAt(k: nat, i: nat)
    requires i < k
    ensures |Alternating(k)| == k && Alternating(k)[i] == if i % 2 == 0 then '+' else '-'
  {
    if k > 1 {
      AlternatingAt(k - 1, if i < k - 1 then i else 0);
    }
  }

  function Tokens(s: State): nat {
    s.sem0 + s.sem1 + (if s.ping.phase != AtWait then 1 else 0) + (if s.pong.phase != AtWait then 1 else 0)
  }

  // What player p has printed, out of n rounds.
  function Printed(n: nat, p: Player): int {
    n - p.rounds + if p.phase == Posting then 1 else 0
  }

  // Is ping's line the last one out, so that pong's is due?
  predicate PongDue(s: State) {
    s.sem1 == 1 || s.ping.phase == Posting || s.pong.phase == Printing
  }

  // One token; ping is ahead of pong by one line exactly while the token is on pong's side.
  ghost predicate Inv(n: nat, s: State) {
    && Tokens(s) == 1
    && (s.ping.phase != AtWait ==> s.ping.rounds > 0) && (s.pong.phase != AtWait ==> s.pong.rounds > 0)
    && s.ping.rounds <= n && s.pong.rounds <= n
    && Printed(n, s.ping) == Printed(n, s.pong) + (if PongDue(s) then 1 else 0)
    && s.out == Alternating(Printed(n, s.ping) + Printed(n, s.pong))
  }

  lemma InvStep(n: nat, s: State, e: Event)
    requires Inv(n, s) && Enabled(s, e)
    ensures Inv(n, Apply(s, e))
  {
  }

  lemma {:induction false} InvRun(n: nat, s: State, es: seq<Event>)
    requires Inv(n, s) && Legal(s, es)
    ensures Inv(n, After(s, es))
    decreases |es|
  {
    if |es| > 0 {
      InvStep(n, s, es[0]);
      InvRun(n, Apply(s, es[0]), es[1..]);
    }
  }

  // The event open in a state, if one is: the token decides.
  function Next(s: State): Event {
    if s.ping.phase == Printing then PrintPing
    else if s.ping.phase == Posting then PostPing
    else if s.pong.phase == Printing then PrintPong
    else if s.pong.phase == Posting then PostPong
    else if s.sem0 > 0 then WaitPing
    else WaitPong
  }

  // The output is always a prefix of (+ -)^n; only the token decides who moves;
  // and a run that cannot go on has printed all of it.
  lemma OutputAlternates(n: nat, es: seq<Event>)
    requires Legal(Initial(n), es)
    ensures var s := After(Initial(n), es);
      && |s.out| <= 2 * n && s.out == Alternating(|s.out|)
      && (forall e :: Enabled(s, e) ==> e == Next(s))
      && (!Enabled(s, Next(s)) <==> |s.out| == 2 * n && s.ping.rounds == s.pong.rounds == 0)
  {
    InvRun(n, Initial(n), es);
    var s := After(Initial(n), es);
    var k := Printed(n, s.ping) + Printed(n, s.pong);
    if k > 0 {
      AlternatingAt(k, 0);
    }
  }
}
