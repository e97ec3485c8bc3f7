// Deliveries of one warning by runs that overlap: each reads the row, sends what its copy lacks, and saves the copy.
module WarningRaces {
  import opened Wrappers
  import opened QuietHours
  import opened Warnings

  /** What a run has read: the row, how often it had been saved by then, and the world as the run sees it. */
  datatype Reading = Reading(world: World, copy: Warning, seen: nat)

  datatype Desk = Desk(row: Warning, saves: nat, log: seq<Attempt>, readings: map<nat, Reading>)

  datatype Move = Read(run: nat, world: World) | Deliver(run: nat)

  function Turn(s: Desk, mv: Move): Desk {
    match mv
    case Read(j, w) => if j in s.readings then s else s.(readings := s.readings[j := Reading(w, s.row, s.saves)])
    case Deliver(j) =>
      if j !in s.readings then s
      else
        var r := s.readings[j];
        if !Deliverable(r.world, r.copy) then s.(readings := s.readings - {j})
        else Desk(After(r.world, r.copy), s.saves + 1, s.log + Attempts(r.copy, ToSend(r.world, r.copy), r.world.now),
                  s.readings - {j})
  }

  function Turns(s: Desk, moves: seq<Move>): Desk {
    if moves == [] then s else Turn(Turns(s, moves[..|moves| - 1]), moves[|moves| - 1])
  }

  function Fresh(x: Warning): Desk { Desk(x, 0, [], map[]) }

  /** How often a message went out on a channel. */
  function Times(log: seq<Attempt>, ch: Channel): nat {
    if log == [] then 0 else Times(log[..|log| - 1], ch) + if log[|log| - 1].channel == ch then 1 else 0
  }

  lemma {:induction false} TimesConcat(a: seq<Attempt>, b: seq<Attempt>, ch: Channel)
    ensures Times(a + b, ch) == Times(a, ch) + Times(b, ch)
    decreases |b|
  {
    if b == [] {
      assert a + b == a;
    } else {
      TimesConcat(a, b[..|b| - 1], ch);
      assert (a + b)[..|a + b| - 1] == a + b[..|b| - 1];
    }
  }

  lemma {:induction false} TimesEach(x: Warning, chs: seq<Channel>, at: int, ch: Channel)
    requires forall i, j :: 0 <= i < j < |chs| ==> chs[i] != chs[j]
    ensures Times(Attempts(x, chs, at), ch) == if ch in chs then 1 else 0
    decreases |chs|
  {
    if chs != [] {
      var rest := chs[..|chs| - 1];
      TimesEach(x, rest, at, ch);
      assert Attempts(x, chs, at)[..|chs| - 1] == Attempts(x, rest, at);
      assert chs == rest + [chs[|chs| - 1]];
    }
  }

  /** One delivery tries each channel at most once. */
  lemma {:induction false} TimesSent(w: World, x: Warning, ch: Channel)
    ensures Times(Attempts(x, ToSend(w, x), w.now), ch) == if ch in ToSend(w, x) then 1 else 0
  {
    EachTriedOnce(w, x);
    TimesEach(x, ToSend(w, x), w.now, ch);
  }

  /** The row was saved between this run's reading and its delivery. */
  predicate Overtaken(s: Desk, mv: Move) {
    mv.Deliver? && mv.run in s.readings && s.readings[mv.run].seen != s.saves
    && Deliverable(s.readings[mv.run].world, s.readings[mv.run].copy)
  }

  /** A message on the channel went out at most once, and then the row says so; a copy taken since the last save is the row. */
  ghost predicate Good(s: Desk, ch: Channel) {
    && Times(s.log, ch) <= 1
    && (Times(s.log, ch) == 1 ==> s.row.Done(ch).Some?)
    && (forall j :: j in s.readings && s.readings[j].seen == s.saves ==> s.readings[j].copy == s.row)
    && (forall j :: j in s.readings ==> s.readings[j].seen <= s.saves)
  }

  lemma {:induction false} TurnGood(s: Desk, mv: Move, ch: Channel)
    requires Good(s, ch) && !Overtaken(s, mv)
    ensures Good(Turn(s, mv), ch)
  {
    hide Times, ToSend, After, Deliverable, Attempts;
    if mv.Deliver? && mv.run in s.readings {
      var r := s.readings[mv.run];
      TimesConcat(s.log, Attempts(r.copy, ToSend(r.world, r.copy), r.world.now), ch);
      TimesSent(r.world, r.copy, ch);
      DoneStays(r.world, r.copy);
      if ch in ToSend(r.world, r.copy) {
        SentIsMarked(r.world, r.copy, ch);
      }
    }
  }

  ghost predicate NoneOvertaken(s: Desk, moves: seq<Move>) {
    forall i :: 0 <= i < |moves| ==> !Overtaken(Turns(s, moves[..i]), moves[i])
  }

  /** However many runs overlap, a warning goes out on a channel at most once as long as no run saves the row between
      another's reading and delivery of it. */
  lemma {:induction false} OnceUnlessOvertaken(x: Warning, moves: seq<Move>, ch: Channel)
    requires NoneOvertaken(Fresh(x), moves)
    ensures Good(Turns(Fresh(x), moves), ch)
    decreases |moves|
  {
    hide Turn, Overtaken;
    if moves != [] {
      var before := moves[..|moves| - 1];
      forall i | 0 <= i <= |before| ensures moves[..i] == before[..i] {}
      forall i | 0 <= i < |before| ensures !Overtaken(Turns(Fresh(x), before[..i]), before[i]) {
        assert !Overtaken(Turns(Fresh(x), moves[..i]), moves[i]);
      }
      OnceUnlessOvertaken(x, before, ch);
      assert before[..|before|] == before;
      assert !Overtaken(Turns(Fresh(x), moves[..|before|]), moves[|before|]);
      TurnGood(Turns(Fresh(x), before), moves[|before|], ch);
    }
  }

  // ---- two runs ----

  /** Of two deliveries, the second may read before or after the first saves. */
  function TwoRuns(w1: World, w2: World, overlap: bool): seq<Move> {
    if overlap then [Read(0, w1), Read(1, w2), Deliver(0), Deliver(1)]
    else [Read(0, w1), Deliver(0), Read(1, w2), Deliver(1)]
  }

  lemma {:induction false} TurnsPush(s: Desk, moves: seq<Move>, mv: Move)
    ensures Turns(s, moves + [mv]) == Turn(Turns(s, moves), mv)
  {
    assert (moves + [mv])[..|moves|] == moves;
  }

  lemma {:induction false} Four(s: Desk, a: Move, b: Move, c: Move, d: Move)
    ensures Turns(s, [a, b, c, d]) == Turn(Turn(Turn(Turn(s, a), b), c), d)
  {
    hide Turn;
    TurnsPush(s, [], a);
    TurnsPush(s, [a], b);
    TurnsPush(s, [a, b], c);
    TurnsPush(s, [a, b, c], d);
    assert [] + [a] == [a] && [a] + [b] == [a, b] && [a, b] + [c] == [a, b, c] && [a, b, c] + [d] == [a, b, c, d];
  }

  lemma {:induction false} NothingSent(w: World, x: Warning)
    ensures !Deliverable(w, x) ==> ToSend(w, x) == []
  {
  }

  /** What the second run reads. */
  function SecondCopy(x: Warning, w1: World, overlap: bool): Warning {
    if overlap || !Deliverable(w1, x) then x else After(w1, x)
  }

  function SentBy(w: World, x: Warning): seq<Attempt> { Attempts(x, ToSend(w, x), w.now) }

  lemma {:induction false} LogOfTwo(x: Warning, w1: World, w2: World, overlap: bool)
    ensures Turns(Fresh(x), TwoRuns(w1, w2, overlap)).log == SentBy(w1, x) + SentBy(w2, SecondCopy(x, w1, overlap))
  {
    hide ToSend, After, Deliverable;
    NothingSent(w1, x);
    NothingSent(w2, SecondCopy(x, w1, overlap));
    if overlap {
      Four(Fresh(x), Read(0, w1), Read(1, w2), Deliver(0), Deliver(1));
    } else {
      Four(Fresh(x), Read(0, w1), Deliver(0), Read(1, w2), Deliver(1));
    }
  }

  /** The same message goes out twice exactly when both runs read the row before either saves it, and both find it to be
      sent. */
  lemma {:induction false} TwiceIfBothReadFirst(x: Warning, w1: World, w2: World, overlap: bool, ch: Channel)
    ensures var times := Times(Turns(Fresh(x), TwoRuns(w1, w2, overlap)).log, ch);
            times <= 2 && (times == 2 <==> overlap && ch in ToSend(w1, x) && ch in ToSend(w2, x))
  {
    hide Times, ToSend, After, Deliverable, Attempts, Turns;
    var x2 := SecondCopy(x, w1, overlap);
    LogOfTwo(x, w1, w2, overlap);
    TimesConcat(SentBy(w1, x), SentBy(w2, x2), ch);
    TimesSent(w1, x, ch);
    TimesSent(w2, x2, ch);
    if ch in ToSend(w1, x) {
      SentIsMarked(w1, x, ch);
      NothingSent(w1, x);
    }
    if ch in ToSend(w2, x2) {
      SentIsMarked(w2, x2, ch);
    }
  }

  /** Nor need both send: a run that read first and holds the bot's message back, for it is night by then, saves the row
      without the other's mark, and the next run sends the message again. */
  lemma {:induction false} MarkErased(x: Warning, day: World, night: World, later: World)
    requires Bot in ToSend(day, x)
    requires Deliverable(night, x) && StillTrue(night, x) && Held(night, x)
    requires Bot in ToSend(later, After(night, x))
    ensures var s := Turns(Fresh(x), [Read(0, day), Read(1, night), Deliver(0), Deliver(1), Read(2, later), Deliver(2)]);
            Times(s.log, Bot) == 2 && Bot !in ToSend(night, x)
  {
    hide Times, StillTrue, Held, Attempts, Turns, After;
    var y := After(night, x);
    LogOfThree(x, day, night, later);
    TimesConcat(SentBy(day, x) + SentBy(night, x), SentBy(later, y), Bot);
    TimesConcat(SentBy(day, x), SentBy(night, x), Bot);
    TimesSent(day, x, Bot);
    TimesSent(night, x, Bot);
    TimesSent(later, y, Bot);
  }

  lemma {:induction false} LogOfThree(x: Warning, day: World, night: World, later: World)
    requires Deliverable(day, x) && Deliverable(night, x) && Deliverable(later, After(night, x))
    ensures Turns(Fresh(x), [Read(0, day), Read(1, night), Deliver(0), Deliver(1), Read(2, later), Deliver(2)]).log
         == SentBy(day, x) + SentBy(night, x) + SentBy(later, After(night, x))
  {
    hide ToSend, After, Deliverable, Attempts;
    Six(Fresh(x), Read(0, day), Read(1, night), Deliver(0), Deliver(1), Read(2, later), Deliver(2));
  }

  lemma {:induction false} Six(s: Desk, a: Move, b: Move, c: Move, d: Move, e: Move, f: Move)
    ensures Turns(s, [a, b, c, d, e, f]) == Turn(Turn(Turns(s, [a, b, c, d]), e), f)
    ensures Turns(s, [a, b, c, d]) == Turn(Turn(Turn(Turn(s, a), b), c), d)
  {
    hide Turn;
    Four(s, a, b, c, d);
    TurnsPush(s, [a, b, c, d], e);
    TurnsPush(s, [a, b, c, d, e], f);
    assert [a, b, c, d] + [e] == [a, b, c, d, e] && [a, b, c, d, e] + [f] == [a, b, c, d, e, f];
  }
}
