/**
 * The visibility-triggered animator of app.js: when an observed element comes into view,
 * a `skills` section starts the skill-bar fill (at most once per `PortfolioApp` instance,
 * guarded by `skillBarsAnimated`) and a `projects` section starts the project-card cascade (every time).
 *
 * The browser's IntersectionObserver is the caller: an "element entered view" report is an
 * input. Timer callbacks are recorded, in the order in which setTimeout was called, with
 * their delay and what they will do when they run.
 */
module Animations {
  import opened Wrappers
  import opened Seqs

  /** What a scheduled callback does to the page. */
  datatype Action =
    | SetBarWidth(bar: nat, width: string)  // bar.style.width = `${progress}%`
    | RevealProjectCard(card: nat)           // card.style.opacity = '1', transform reset

  /** A setTimeout call: the delay in milliseconds and the callback's effect. */
  datatype Timeout = Timeout(delay: nat, action: Action)

  /** A `.skill-progress` element and its data-progress attribute (None when absent). */
  datatype SkillBar = SkillBar(dataProgress: Option<string>)

  /** An IntersectionObserver entry: whether it intersects and the class list of its target. */
  datatype Entry = Entry(isIntersecting: bool, classes: set<string>)

  const SKILL_BAR_STEP := 200
  const PROJECT_CARD_STEP := 150

  /** `getAttribute('data-progress') || '0'`: an absent or empty attribute reads as "0". */
  function Progress(bar: SkillBar): (r: string)
    ensures r != ""
    ensures bar.dataProgress == Some(r) || (r == "0" && (bar.dataProgress.None? || bar.dataProgress.value == ""))
  {
    if bar.dataProgress.Some? && bar.dataProgress.value != "" then bar.dataProgress.value else "0"
  }

  /** The timers one run of animateSkillBars schedules: bar i at i * 200 ms. */
  function SkillBarTimers(bars: seq<SkillBar>): seq<Timeout> {
    seq(|bars|, i requires 0 <= i < |bars| => Timeout(i * SKILL_BAR_STEP, SetBarWidth(i, Progress(bars[i]) + "%")))
  }

  /** The timers one run of animateProjectCards schedules: card i at i * 150 ms. */
  function ProjectCardTimers(cardCount: nat): seq<Timeout> {
    seq(cardCount, i requires 0 <= i < cardCount => Timeout(i * PROJECT_CARD_STEP, RevealProjectCard(i)))
  }

  predicate EntersSkills(e: Entry) {
    e.isIntersecting && "skills" in e.classes
  }

  predicate EntersProjects(e: Entry) {
    e.isIntersecting && "projects" in e.classes
  }

  /** The timers the observer callback schedules for one entry, given the guard's value before it. */
  function EntryTimers(animated: bool, e: Entry, bars: seq<SkillBar>, cardCount: nat): seq<Timeout> {
    (if EntersSkills(e) && !animated then SkillBarTimers(bars) else []) +
    (if EntersProjects(e) then ProjectCardTimers(cardCount) else [])
  }

  /** The timers the observer callback schedules for a batch of entries, handled in order. */
  function BatchTimers(animated: bool, entries: seq<Entry>, bars: seq<SkillBar>, cardCount: nat): seq<Timeout>
    decreases |entries|
  {
    if entries == [] then []
    else
      EntryTimers(animated, entries[0], bars, cardCount) +
      BatchTimers(animated || EntersSkills(entries[0]), entries[1..], bars, cardCount)
  }

  /** The skill-bar timers of a schedule, in order. */
  function SkillTimersOf(ts: seq<Timeout>): seq<Timeout>
    decreases |ts|
  {
    if ts == [] then []
    else (if ts[0].action.SetBarWidth? then [ts[0]] else []) + SkillTimersOf(ts[1..])
  }

  /** The project-card timers of a schedule, in order. */
  function CardTimersOf(ts: seq<Timeout>): seq<Timeout>
    decreases |ts|
  {
    if ts == [] then []
    else (if ts[0].action.RevealProjectCard? then [ts[0]] else []) + CardTimersOf(ts[1..])
  }

  /** `n` back-to-back copies of a schedule. */
  function Repeat(ts: seq<Timeout>, n: nat): seq<Timeout> {
    if n == 0 then [] else ts + Repeat(ts, n - 1)
  }

  /** How many entries of the batch bring a `projects` element into view. */
  function ProjectEntries(entries: seq<Entry>): nat
    decreases |entries|
  {
    if entries == [] then 0 else (if EntersProjects(entries[0]) then 1 else 0) + ProjectEntries(entries[1..])
  }

  /** The guard's value after the observer callback has handled the entries. */
  function GuardAfter(animated: bool, entries: seq<Entry>): bool
    decreases |entries|
  {
    if entries == [] then animated else GuardAfter(animated || EntersSkills(entries[0]), entries[1..])
  }

  /** The guard is set afterwards exactly when it was set before or some entry brought a skills element into view. */
  lemma {:induction false} GuardAfterIsSticky(animated: bool, entries: seq<Entry>)
    ensures GuardAfter(animated, entries) == (animated || exists i :: 0 <= i < |entries| && EntersSkills(entries[i]))
    decreases |entries|
  {
    if entries != [] {
      var rest := entries[1..];
      GuardAfterIsSticky(animated || EntersSkills(entries[0]), rest);
      forall i | 0 <= i < |rest| ensures rest[i] == entries[i + 1] { }
      if exists i :: 0 <= i < |entries| && EntersSkills(entries[i]) {
        var i :| 0 <= i < |entries| && EntersSkills(entries[i]);
        assert i == 0 || EntersSkills(rest[i - 1]);
      }
    }
  }

  class PortfolioApp {
    /** The one-shot guard of animateSkillBars. */
    var skillBarsAnimated: bool
    /** The setTimeout calls made so far, in order. */
    var timers: seq<Timeout>

    /** setupSkillBars, at construction: the guard starts cleared and nothing is scheduled. */
    constructor ()
      ensures !skillBarsAnimated && timers == []
    {
      skillBarsAnimated := false;
      timers := [];
    }

    /**
     * animateSkillBars: the first call sets the guard and schedules bar i at i * 200 ms with its
     * data-progress as width; every later call returns at once.
     */
    method AnimateSkillBars(bars: seq<SkillBar>)
      modifies this
      ensures skillBarsAnimated
      ensures old(skillBarsAnimated) ==> timers == old(timers)
      ensures !old(skillBarsAnimated) ==> timers == old(timers) + SkillBarTimers(bars)
    {
      if skillBarsAnimated {
        return;
      }
      skillBarsAnimated := true;
      var i := 0;
      while i < |bars|
        invariant 0 <= i <= |bars|
        invariant skillBarsAnimated
        invariant timers == old(timers) + SkillBarTimers(bars)[..i]
      {
        var progress := if bars[i].dataProgress.Some? && bars[i].dataProgress.value != ""
                        then bars[i].dataProgress.value else "0";
        timers := timers + [Timeout(i * 200, SetBarWidth(i, progress + "%"))];
        i := i + 1;
      }
      assert SkillBarTimers(bars)[..i] == SkillBarTimers(bars);
    }

    /** animateProjectCards: no guard, card i is revealed at i * 150 ms on every call. */
    method AnimateProjectCards(cardCount: nat)
      modifies this
      ensures skillBarsAnimated == old(skillBarsAnimated)
      ensures timers == old(timers) + ProjectCardTimers(cardCount)
    {
      var i := 0;
      while i < cardCount
        invariant 0 <= i <= cardCount
        invariant skillBarsAnimated == old(skillBarsAnimated)
        invariant timers == old(timers) + ProjectCardTimers(cardCount)[..i]
      {
        timers := timers + [Timeout(i * 150, RevealProjectCard(i))];
        i := i + 1;
      }
      assert ProjectCardTimers(cardCount)[..i] == ProjectCardTimers(cardCount);
    }

    /**
     * The IntersectionObserver callback of setupScrollAnimations for one entry: an intersecting
     * `skills` target runs animateSkillBars, then an intersecting `projects` target runs
     * animateProjectCards.
     */
    method OnEntry(entry: Entry, bars: seq<SkillBar>, cardCount: nat)
      modifies this
      ensures skillBarsAnimated == (old(skillBarsAnimated) || EntersSkills(entry))
      ensures timers == old(timers) + EntryTimers(old(skillBarsAnimated), entry, bars, cardCount)
    {
      if entry.isIntersecting {
        if "skills" in entry.classes {
          AnimateSkillBars(bars);
        }
        if "projects" in entry.classes {
          AnimateProjectCards(cardCount);
        }
      }
    }

    /**
     * The callback for one batch of entries, handled in order. The guard ends up set exactly
     * when it was set before or some skills entry intersected.
     */
    method OnIntersection(entries: seq<Entry>, bars: seq<SkillBar>, cardCount: nat)
      modifies this
      ensures skillBarsAnimated == (old(skillBarsAnimated) || exists i :: 0 <= i < |entries| && EntersSkills(entries[i]))
      ensures timers == old(timers) + BatchTimers(old(skillBarsAnimated), entries, bars, cardCount)
    {
      ghost var animated0, timers0 := skillBarsAnimated, timers;
      var i := 0;
      while i < |entries|
        invariant 0 <= i <= |entries|
        invariant skillBarsAnimated == GuardAfter(animated0, entries[..i])
        invariant timers == timers0 + BatchTimers(animated0, entries[..i], bars, cardCount)
      {
        OnEntry(entries[i], bars, cardCount);
        BatchPrefixStep(animated0, entries, i, bars, cardCount, timers0);
        i := i + 1;
      }
      assert entries[..i] == entries;
      GuardAfterIsSticky(animated0, entries);
    }
  }

  lemma {:induction false} SkillTimersOfAppend(a: seq<Timeout>, b: seq<Timeout>)
    ensures SkillTimersOf(a + b) == SkillTimersOf(a) + SkillTimersOf(b)
    decreases |a|
  {
    if a == [] {
      assert a + b == b;
    } else {
      var head := if a[0].action.SetBarWidth? then [a[0]] else [];
      calc {
        SkillTimersOf(a + b);
      == { assert (a + b)[0] == a[0] && (a + b)[1..] == a[1..] + b; }
        head + SkillTimersOf(a[1..] + b);
      == { SkillTimersOfAppend(a[1..], b); }
        head + (SkillTimersOf(a[1..]) + SkillTimersOf(b));
      ==
        SkillTimersOf(a) + SkillTimersOf(b);
      }
    }
  }

  lemma {:induction false} CardTimersOfAppend(a: seq<Timeout>, b: seq<Timeout>)
    ensures CardTimersOf(a + b) == CardTimersOf(a) + CardTimersOf(b)
    decreases |a|
  {
    if a == [] {
      assert a + b == b;
    } else {
      var head := if a[0].action.RevealProjectCard? then [a[0]] else [];
      calc {
        CardTimersOf(a + b);
      == { assert (a + b)[0] == a[0] && (a + b)[1..] == a[1..] + b; }
        head + CardTimersOf(a[1..] + b);
      == { CardTimersOfAppend(a[1..], b); }
        head + (CardTimersOf(a[1..]) + CardTimersOf(b));
      ==
        CardTimersOf(a) + CardTimersOf(b);
      }
    }
  }

  lemma {:induction false} SkillTimersOfCards(n: nat)
    ensures SkillTimersOf(ProjectCardTimers(n)) == []
    ensures CardTimersOf(ProjectCardTimers(n)) == ProjectCardTimers(n)
  {
    if n > 0 {
      SkillTimersOfCards(n - 1);
      assert ProjectCardTimers(n) == ProjectCardTimers(n - 1) + [Timeout((n - 1) * PROJECT_CARD_STEP, RevealProjectCard(n - 1))];
      SkillTimersOfAppend(ProjectCardTimers(n - 1), [Timeout((n - 1) * PROJECT_CARD_STEP, RevealProjectCard(n - 1))]);
      CardTimersOfAppend(ProjectCardTimers(n - 1), [Timeout((n - 1) * PROJECT_CARD_STEP, RevealProjectCard(n - 1))]);
    }
  }

  lemma {:induction false} CardTimersOfBars(bars: seq<SkillBar>)
    ensures SkillTimersOf(SkillBarTimers(bars)) == SkillBarTimers(bars)
    ensures CardTimersOf(SkillBarTimers(bars)) == []
    decreases |bars|
  {
    if bars != [] {
      var n := |bars| - 1;
      var last := Timeout(n * SKILL_BAR_STEP, SetBarWidth(n, Progress(bars[n]) + "%"));
      CardTimersOfBars(bars[..n]);
      assert SkillBarTimers(bars) == SkillBarTimers(bars[..n]) + [last];
      SkillTimersOfAppend(SkillBarTimers(bars[..n]), [last]);
      CardTimersOfAppend(SkillBarTimers(bars[..n]), [last]);
    }
  }

  /** The guard after two batches in a row is the guard after one batch of all their entries. */
  lemma {:induction false} GuardAfterSplit(animated: bool, first: seq<Entry>, second: seq<Entry>)
    ensures GuardAfter(animated, first + second) == GuardAfter(GuardAfter(animated, first), second)
    decreases |first|
  {
    if first == [] {
      assert first + second == second;
    } else {
      var whole := first + second;
      assert whole[0] == first[0] && whole[1..] == first[1..] + second;
      GuardAfterSplit(animated || EntersSkills(first[0]), first[1..], second);
    }
  }

  /**
   * Two observer batches in a row schedule what one batch of all their entries would: the
   * second batch starts from the guard the first one leaves. So the one-batch lemmas below
   * also cover any sequence of batches.
   */
  lemma {:induction false} BatchTimersSplit(animated: bool, first: seq<Entry>, second: seq<Entry>,
                                            bars: seq<SkillBar>, cardCount: nat)
    ensures BatchTimers(animated, first + second, bars, cardCount) ==
      BatchTimers(animated, first, bars, cardCount) + BatchTimers(GuardAfter(animated, first), second, bars, cardCount)
    decreases |first|
  {
    if first == [] {
      assert first + second == second;
    } else {
      var e, rest := first[0], first[1..];
      var next := animated || EntersSkills(e);
      var here := EntryTimers(animated, e, bars, cardCount);
      calc {
        BatchTimers(animated, first + second, bars, cardCount);
      == { assert (first + second)[0] == e && (first + second)[1..] == rest + second; }
        here + BatchTimers(next, rest + second, bars, cardCount);
      == { BatchTimersSplit(next, rest, second, bars, cardCount); }
        here + (BatchTimers(next, rest, bars, cardCount) + BatchTimers(GuardAfter(next, rest), second, bars, cardCount));
      == { AppendAssoc(here, BatchTimers(next, rest, bars, cardCount), BatchTimers(GuardAfter(next, rest), second, bars, cardCount)); }
        (here + BatchTimers(next, rest, bars, cardCount)) + BatchTimers(GuardAfter(next, rest), second, bars, cardCount);
      == { assert GuardAfter(animated, first) == GuardAfter(next, rest);
           assert BatchTimers(animated, first, bars, cardCount) == here + BatchTimers(next, rest, bars, cardCount); }
        BatchTimers(animated, first, bars, cardCount) + BatchTimers(GuardAfter(animated, first), second, bars, cardCount);
      }
    }
  }

  /** One more entry at the end of a batch: its timers follow, started from the guard the batch leaves. */
  lemma BatchTimersStep(animated: bool, entries: seq<Entry>, e: Entry, bars: seq<SkillBar>, cardCount: nat)
    ensures BatchTimers(animated, entries + [e], bars, cardCount) ==
      BatchTimers(animated, entries, bars, cardCount) + EntryTimers(GuardAfter(animated, entries), e, bars, cardCount)
    ensures GuardAfter(animated, entries + [e]) == (GuardAfter(animated, entries) || EntersSkills(e))
  {
    BatchTimersSplit(animated, entries, [e], bars, cardCount);
    GuardAfterSplit(animated, entries, [e]);
    var g := GuardAfter(animated, entries);
    assert [e][1..] == [];
    assert BatchTimers(g, [e], bars, cardCount) == EntryTimers(g, e, bars, cardCount) + [];
  }

  /** The same step stated on prefixes of one batch, after timers already scheduled before it. */
  lemma BatchPrefixStep(animated: bool, entries: seq<Entry>, i: nat, bars: seq<SkillBar>, cardCount: nat,
                        before: seq<Timeout>)
    requires i < |entries|
    ensures before + BatchTimers(animated, entries[..i], bars, cardCount) +
              EntryTimers(GuardAfter(animated, entries[..i]), entries[i], bars, cardCount) ==
            before + BatchTimers(animated, entries[..i + 1], bars, cardCount)
    ensures GuardAfter(animated, entries[..i + 1]) == (GuardAfter(animated, entries[..i]) || EntersSkills(entries[i]))
  {
    assert entries[..i + 1] == entries[..i] + [entries[i]];
    BatchTimersStep(animated, entries[..i], entries[i], bars, cardCount);
  }

  /**
   * The one-shot guard over one observer batch (and, by BatchTimersSplit, over any sequence
   * of batches): the skill-bar timers scheduled
   * are one full SkillBarTimers(bars) if the guard was clear and some skills entry intersects,
   * and none otherwise; in particular, once the guard is set nothing more is scheduled for the bars.
   */
  lemma {:induction false} SkillBarsAnimateOnce(animated: bool, entries: seq<Entry>, bars: seq<SkillBar>, cardCount: nat)
    ensures SkillTimersOf(BatchTimers(animated, entries, bars, cardCount)) ==
      if !animated && exists i :: 0 <= i < |entries| && EntersSkills(entries[i]) then SkillBarTimers(bars) else []
    decreases |entries|
  {
    if entries != [] {
      var e, rest := entries[0], entries[1..];
      var next := animated || EntersSkills(e);
      var skills := if EntersSkills(e) && !animated then SkillBarTimers(bars) else [];
      var cards := if EntersProjects(e) then ProjectCardTimers(cardCount) else [];
      var later := BatchTimers(next, rest, bars, cardCount);
      CardTimersOfBars(bars);
      SkillTimersOfCards(cardCount);
      calc {
        SkillTimersOf(BatchTimers(animated, entries, bars, cardCount));
        SkillTimersOf((skills + cards) + later);
      == { SkillTimersOfAppend(skills + cards, later); SkillTimersOfAppend(skills, cards); }
        (SkillTimersOf(skills) + SkillTimersOf(cards)) + SkillTimersOf(later);
      == { assert SkillTimersOf(skills) == skills && SkillTimersOf(cards) == [] && skills + [] == skills; }
        skills + SkillTimersOf(later);
      == { SkillBarsAnimateOnce(next, rest, bars, cardCount); }
        skills + (if !next && exists i :: 0 <= i < |rest| && EntersSkills(rest[i]) then SkillBarTimers(bars) else []);
      }
      assert (exists i :: 0 <= i < |entries| && EntersSkills(entries[i])) <==>
             EntersSkills(e) || exists i :: 0 <= i < |rest| && EntersSkills(rest[i]) by {
        forall i | 0 <= i < |rest| ensures rest[i] == entries[i + 1] { }
        if exists i :: 0 <= i < |entries| && EntersSkills(entries[i]) {
          var i :| 0 <= i < |entries| && EntersSkills(entries[i]);
          assert i == 0 || EntersSkills(rest[i - 1]);
        }
      }
    }
  }

  /** Project cards have no guard: every intersecting projects entry schedules the whole cascade again. */
  lemma {:induction false} ProjectCardsReplay(animated: bool, entries: seq<Entry>, bars: seq<SkillBar>, cardCount: nat)
    ensures CardTimersOf(BatchTimers(animated, entries, bars, cardCount)) ==
      Repeat(ProjectCardTimers(cardCount), ProjectEntries(entries))
    decreases |entries|
  {
    if entries != [] {
      var e, rest := entries[0], entries[1..];
      var next := animated || EntersSkills(e);
      var skills := if EntersSkills(e) && !animated then SkillBarTimers(bars) else [];
      var cards := if EntersProjects(e) then ProjectCardTimers(cardCount) else [];
      var later := BatchTimers(next, rest, bars, cardCount);
      CardTimersOfBars(bars);
      SkillTimersOfCards(cardCount);
      calc {
        CardTimersOf(BatchTimers(animated, entries, bars, cardCount));
        CardTimersOf((skills + cards) + later);
      == { CardTimersOfAppend(skills + cards, later); CardTimersOfAppend(skills, cards); }
        (CardTimersOf(skills) + CardTimersOf(cards)) + CardTimersOf(later);
      == { assert CardTimersOf(skills) == [] && CardTimersOf(cards) == cards && [] + cards == cards; }
        cards + CardTimersOf(later);
      == { ProjectCardsReplay(next, rest, bars, cardCount); }
        cards + Repeat(ProjectCardTimers(cardCount), ProjectEntries(rest));
      == { if !EntersProjects(e) { assert cards == []; } }
        Repeat(ProjectCardTimers(cardCount), ProjectEntries(entries));
      }
    }
  }
}
