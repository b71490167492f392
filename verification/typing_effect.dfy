/**
 * The typing effect of the hero subtitle (`initTypingEffect`, app.js lines
 * 269-319): each skill is typed one character per tick, erased one character
 * per tick, and then the next skill, wrapping around, is typed.
 *
 * A phase's `setInterval` loop is a `while` loop whose iterations are its ticks;
 * the texts it shows are returned in order. The delays between phases are not
 * modelled as time: the caller runs the phases one after the other.
 */
module Typing {
  import opened JsText

  /** The effect only runs on viewports wider than this many pixels. */
  const MinWidth := 768

  /** The skills the subtitle cycles through, in order. */
  const Skills: seq<string> := ["Python", "SQL", "Power BI", "Excel", "Data Analysis"]

  /** How many skills there are. */
  const SkillCount := 5

  /** Each configured skill has at least one character. */
  lemma SkillsNonEmpty()
    ensures |Skills| == SkillCount
    ensures forall i | 0 <= i < |Skills| :: |Skills[i]| > 0
  {
  }

  /** The texts shown by the typing ticks that start at `charIndex`. */
  function TypeFrames(skill: string, charIndex: nat): seq<string>
    decreases |skill| - charIndex
  {
    if charIndex >= |skill| then []
    else [Substring(skill, 0, charIndex + 1)] + TypeFrames(skill, charIndex + 1)
  }

  /** The texts shown by the erasing ticks that start at `charIndex`. */
  function EraseFrames(skill: string, charIndex: int): seq<string>
    decreases charIndex + 1
  {
    if charIndex < 0 then []
    else [Substring(skill, 0, charIndex)] + EraseFrames(skill, charIndex - 1)
  }

  /**
   * Typing from `charIndex` shows the prefixes of `skill` of lengths
   * `charIndex + 1` up to `|skill|`, one longer each tick.
   */
  lemma {:induction false} TypeFramesArePrefixes(skill: string, charIndex: nat)
    requires charIndex <= |skill|
    ensures |TypeFrames(skill, charIndex)| == |skill| - charIndex
    ensures forall k | 0 <= k < |skill| - charIndex ::
      TypeFrames(skill, charIndex)[k] == skill[..charIndex + k + 1]
    decreases |skill| - charIndex
  {
    if charIndex < |skill| {
      TypeFramesArePrefixes(skill, charIndex + 1);
      var rest := TypeFrames(skill, charIndex + 1);
      forall k | 0 < k < |skill| - charIndex
        ensures TypeFrames(skill, charIndex)[k] == skill[..charIndex + k + 1]
      {
        assert TypeFrames(skill, charIndex)[k] == rest[k - 1];
      }
    }
  }

  /**
   * Erasing from `charIndex` shows the prefixes of `skill` of lengths
   * `charIndex` down to 0, one shorter each tick.
   */
  lemma {:induction false} EraseFramesArePrefixes(skill: string, charIndex: int)
    requires -1 <= charIndex <= |skill|
    ensures |EraseFrames(skill, charIndex)| == charIndex + 1
    ensures forall k | 0 <= k <= charIndex ::
      EraseFrames(skill, charIndex)[k] == skill[..charIndex - k]
    decreases charIndex + 1
  {
    if charIndex >= 0 {
      EraseFramesArePrefixes(skill, charIndex - 1);
      var rest := EraseFrames(skill, charIndex - 1);
      forall k | 0 < k <= charIndex
        ensures EraseFrames(skill, charIndex)[k] == skill[..charIndex - k]
      {
        assert EraseFrames(skill, charIndex)[k] == rest[k - 1];
      }
    }
  }

  /** `t` is a prefix of one of `skills`. */
  ghost predicate PrefixOfSome(skills: seq<string>, t: string) {
    exists j | 0 <= j < |skills| :: t <= skills[j]
  }

  /** Every text in `frames` is a prefix of one of `skills`. */
  ghost predicate AllPrefixesOf(skills: seq<string>, frames: seq<string>) {
    forall k | 0 <= k < |frames| :: PrefixOfSome(skills, frames[k])
  }

  /** Every text a whole typing or erasing phase of skill `i` shows is a prefix of a skill. */
  lemma PhaseFramesAreSkillPrefixes(skills: seq<string>, i: nat)
    requires i < |skills|
    ensures AllPrefixesOf(skills, TypeFrames(skills[i], 0))
    ensures AllPrefixesOf(skills, EraseFrames(skills[i], |skills[i]|))
  {
    var skill := skills[i];
    TypeFramesArePrefixes(skill, 0);
    EraseFramesArePrefixes(skill, |skill|);
    forall k | 0 <= k < |TypeFrames(skill, 0)|
      ensures PrefixOfSome(skills, TypeFrames(skill, 0)[k])
    {
      assert TypeFrames(skill, 0)[k] <= skills[i];
    }
    forall k | 0 <= k < |EraseFrames(skill, |skill|)|
      ensures PrefixOfSome(skills, EraseFrames(skill, |skill|)[k])
    {
      assert EraseFrames(skill, |skill|)[k] <= skills[i];
    }
  }

  /** The texts one round shows: `skill` typed, then erased. */
  function RoundFrames(skill: string): seq<string> {
    TypeFrames(skill, 0) + EraseFrames(skill, |skill|)
  }

  /** Joining two runs of prefixes gives a run of prefixes. */
  lemma PrefixesJoin(skills: seq<string>, a: seq<string>, b: seq<string>)
    requires AllPrefixesOf(skills, a) && AllPrefixesOf(skills, b)
    ensures AllPrefixesOf(skills, a + b)
  {
    forall k | 0 <= k < |a + b|
      ensures PrefixOfSome(skills, (a + b)[k])
    {
      if k >= |a| { assert (a + b)[k] == b[k - |a|]; }
    }
  }

  /** Every text a round of skill `i` shows is a prefix of a skill. */
  lemma RoundFramesArePrefixes(skills: seq<string>, i: nat)
    requires i < |skills|
    ensures AllPrefixesOf(skills, RoundFrames(skills[i]))
  {
    PhaseFramesAreSkillPrefixes(skills, i);
    PrefixesJoin(skills, TypeFrames(skills[i], 0), EraseFrames(skills[i], |skills[i]|));
  }

  /**
   * The texts shown by `cycles` rounds starting at skill `i`: each round types
   * and erases its skill and hands over to the next skill, wrapping from the
   * last back to the first.
   */
  function RunFrames(skills: seq<string>, i: nat, cycles: nat): seq<string>
    requires i < |skills|
    decreases cycles
  {
    if cycles == 0 then []
    else RoundFrames(skills[i]) + RunFrames(skills, (i + 1) % |skills|, cycles - 1)
  }

  /** One step round `n` skills and then `steps - 1` more land where `steps` steps do. */
  lemma Wrap(start: nat, steps: nat, n: nat)
    requires n == SkillCount && steps > 0
    ensures ((start + 1) % n + (steps - 1)) % n == (start + steps) % n
  {
  }

  /**
   * A run of `cycles` rounds from skill `start` is one round of that skill
   * followed by a run of `cycles - 1` rounds from the next skill: this joins
   * what the two parts show and where they leave the skill index.
   */
  lemma RunJoin(skills: seq<string>, start: nat, next: nat, last: nat, cycles: nat,
                first: seq<string>, rest: seq<string>)
    requires |skills| == SkillCount && start < |skills| && cycles > 0
    requires next == (start + 1) % |skills| && last == (next + (cycles - 1)) % |skills|
    requires first == RoundFrames(skills[start])
    requires rest == RunFrames(skills, next, cycles - 1) && AllPrefixesOf(skills, rest)
    ensures last == (start + cycles) % |skills|
    ensures first + rest == RunFrames(skills, start, cycles)
    ensures AllPrefixesOf(skills, first + rest)
  {
    Wrap(start, cycles, |skills|);
    RoundFramesArePrefixes(skills, start);
    PrefixesJoin(skills, first, rest);
  }

  /** However many rounds run, every text they show is a prefix of a skill. */
  lemma {:induction false} RunFramesAreSkillPrefixes(skills: seq<string>, i: nat, cycles: nat)
    requires i < |skills|
    ensures AllPrefixesOf(skills, RunFrames(skills, i, cycles))
    decreases cycles
  {
    if cycles > 0 {
      var next := (i + 1) % |skills|;
      RunFramesAreSkillPrefixes(skills, next, cycles - 1);
      RoundFramesArePrefixes(skills, i);
      PrefixesJoin(skills, RoundFrames(skills[i]), RunFrames(skills, next, cycles - 1));
    }
  }

  class TypingEffect {
    /** The skills the closure of `initTypingEffect` cycles through. */
    const skills: seq<string>
    /** The effect runs only when the subtitle exists and the viewport is wide. */
    const running: bool
    /** Which skill is being typed or erased. */
    var skillIndex: nat
    /** The `textContent` of the typing span. */
    var text: string

    /** There are five skills, none of them empty, and the text shown is always a prefix of the current skill. */
    ghost predicate Valid()
      reads this
    {
      && |skills| == SkillCount
      && (forall j | 0 <= j < |skills| :: |skills[j]| > 0)
      && skillIndex < |skills| && text <= skills[skillIndex]
    }

    /** `initTypingEffect` before its first delay: the typing span is empty. */
    constructor (hasSubtitle: bool, innerWidth: int)
      ensures Valid()
      ensures skills == Skills
      ensures running <==> hasSubtitle && innerWidth > MinWidth
      ensures skillIndex == 0 && text == ""
    {
      SkillsNonEmpty();
      skills := Skills;
      running := hasSubtitle && innerWidth > MinWidth;
      skillIndex := 0;
      text := "";
    }

    /**
     * `typeSkill`: one tick per character shows the next longer prefix of the
     * current skill, until the whole skill is shown.
     */
    method TypeSkill() returns (frames: seq<string>)
      requires Valid() && running
      modifies this
      ensures Valid()
      ensures skillIndex == old(skillIndex) && text == skills[skillIndex]
      ensures frames == TypeFrames(skills[skillIndex], 0)
    {
      var currentSkill := skills[skillIndex];
      var charIndex := 0;
      frames := [];
      // The interval's first tick always runs: no skill is empty.
      while charIndex < |currentSkill|
        invariant 0 <= charIndex <= |currentSkill|
        invariant skillIndex == old(skillIndex) && Valid()
        invariant charIndex > 0 ==> text == currentSkill[..charIndex]
        invariant frames + TypeFrames(currentSkill, charIndex) == TypeFrames(currentSkill, 0)
        decreases |currentSkill| - charIndex
      {
        text := Substring(currentSkill, 0, charIndex + 1);
        frames := frames + [text];
        charIndex := charIndex + 1;
      }
    }

    /**
     * `eraseSkill`: one tick per character shows the next shorter prefix, down
     * to the empty text; then the next skill, wrapping around, becomes current.
     */
    method EraseSkill() returns (frames: seq<string>)
      requires Valid() && running
      modifies this
      ensures Valid()
      ensures skillIndex == (old(skillIndex) + 1) % |skills| && text == ""
      ensures frames == EraseFrames(skills[old(skillIndex)], |skills[old(skillIndex)]|)
    {
      var currentSkill := skills[skillIndex];
      var charIndex: int := |currentSkill|;
      frames := [];
      while charIndex >= 0
        invariant -1 <= charIndex <= |currentSkill|
        invariant skillIndex == old(skillIndex) && Valid()
        invariant charIndex < |currentSkill| ==> text == currentSkill[..charIndex + 1]
        invariant frames + EraseFrames(currentSkill, charIndex) == EraseFrames(currentSkill, |currentSkill|)
        decreases charIndex + 1
      {
        text := Substring(currentSkill, 0, charIndex);
        frames := frames + [text];
        charIndex := charIndex - 1;
      }
      skillIndex := (skillIndex + 1) % |skills|;
    }

    /**
     * One round: the current skill is typed and then erased, and the next skill
     * becomes current.
     */
    method Round() returns (frames: seq<string>)
      requires Valid() && running
      modifies this
      ensures Valid()
      ensures skillIndex == (old(skillIndex) + 1) % |skills| && text == ""
      ensures frames == RoundFrames(skills[old(skillIndex)])
    {
      var typed := TypeSkill();
      var erased := EraseSkill();
      frames := typed + erased;
    }

    /**
     * `cycles` rounds of typing and erasing, each round handing over to the
     * next as `eraseSkill`, once the index has wrapped, schedules `typeSkill`
     * again with `setTimeout(typeSkill, 500)`: the texts shown are those of
     * `RunFrames`, so each round shows its own skill and every text shown is a
     * prefix of a skill; the skill index advances by one per round modulo the
     * number of skills, and after a round the span is empty.
     */
    method Run(cycles: nat) returns (frames: seq<string>)
      requires Valid() && running
      modifies this
      ensures Valid()
      ensures skillIndex == (old(skillIndex) + cycles) % |skills|
      ensures cycles > 0 ==> text == ""
      ensures cycles == 0 ==> text == old(text)
      ensures frames == RunFrames(skills, old(skillIndex), cycles)
      ensures AllPrefixesOf(skills, frames)
      decreases cycles
    {
      if cycles == 0 {
        frames := [];
      } else {
        var first := Round();
        ghost var next := skillIndex;
        var rest := Run(cycles - 1);
        RunJoin(skills, old(skillIndex), next, skillIndex, cycles, first, rest);
        frames := first + rest;
      }
    }
  }
}
