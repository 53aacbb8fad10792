/**
 * The practice page of src/pages/PracticePage.tsx: the challenge table, the list of completed
 * challenge ids with its toggle, and what the challenge button does with that list.
 */
module Practice {

  datatype Difficulty = Easy | Medium | Hard

  datatype Area = Clarity | Confidence | Content | Structure

  /** A practice challenge; `duration` is in minutes. */
  datatype Challenge = Challenge(
    id: string, title: string, description: string, duration: nat, difficulty: Difficulty, targetArea: Area)

  const Challenges: seq<Challenge> := [
    Challenge("1", "Elevator Pitch Sprint",
      "Introduce yourself in 30 seconds. Focus on clarity and impact.", 2, Easy, Clarity),
    Challenge("2", "STAR Story Builder",
      "Practice answering \"Tell me about a time...\" with perfect structure.", 3, Medium, Structure),
    Challenge("3", "Filler Word Eliminator",
      "Speak for 60 seconds without using um, uh, like, or you know.", 2, Medium, Confidence),
    Challenge("4", "Technical Deep Dive",
      "Explain a complex concept simply. Show depth without jargon.", 3, Hard, Content),
    Challenge("5", "Rapid Fire Q&A",
      "5 quick questions, 15 seconds each. Think on your feet!", 2, Hard, Confidence),
    Challenge("6", "Achievement Showcase",
      "Describe your biggest win with specific metrics and impact.", 2, Easy, Content)
  ]

  predicate NoDuplicates(xs: seq<string>) {
    forall i, j :: 0 <= i < j < |xs| ==> xs[i] != xs[j]
  }

  /** The ids of the challenges, in table order. */
  function ChallengeIds(): seq<string> {
    seq(|Challenges|, i requires 0 <= i < |Challenges| => Challenges[i].id)
  }

  /** No two challenges share an id. */
  lemma ChallengeIdsDistinct()
    ensures NoDuplicates(ChallengeIds())
  {
  }

  // ---------------------------------------------------------------------------
  // The completed list and its toggle
  // ---------------------------------------------------------------------------

  /** `prev.filter(c => c !== id)`. */
  function Without(xs: seq<string>, id: string): (ys: seq<string>)
    ensures id !in ys
    ensures forall x :: x != id ==> (x in ys <==> x in xs)
  {
    if xs == [] then [] else (if xs[0] == id then [] else [xs[0]]) + Without(xs[1..], id)
  }

  /** `toggleComplete`: remove the id if it is in the list, otherwise append it at the end. */
  function ToggleComplete(prev: seq<string>, id: string): (next: seq<string>)
    ensures id in next <==> id !in prev
    ensures forall x :: x != id ==> (x in next <==> x in prev)
    ensures id !in prev ==> next == prev + [id]
    ensures id in prev ==> next == Without(prev, id)
  {
    if id in prev then Without(prev, id) else prev + [id]
  }

  lemma {:induction false} WithoutAbsent(xs: seq<string>, id: string)
    requires id !in xs
    ensures Without(xs, id) == xs
  {
    if xs != [] {
      WithoutAbsent(xs[1..], id);
    }
  }

  lemma {:induction false} WithoutAppend(xs: seq<string>, ys: seq<string>, id: string)
    ensures Without(xs + ys, id) == Without(xs, id) + Without(ys, id)
  {
    if xs == [] {
      assert xs + ys == ys;
    } else {
      assert (xs + ys)[1..] == xs[1..] + ys;
      WithoutAppend(xs[1..], ys, id);
    }
  }

  lemma {:induction false} WithoutNoDuplicates(xs: seq<string>, id: string)
    requires NoDuplicates(xs)
    ensures NoDuplicates(Without(xs, id))
  {
    if xs != [] {
      WithoutNoDuplicates(xs[1..], id);
      var rest := Without(xs[1..], id);
      assert xs[0] !in xs[1..];
      assert xs[0] !in rest;
    }
  }

  /**
   * Toggling never disturbs other ids: with the toggled id taken out, the list is what it
   * was before, element for element and in the same order.
   */
  lemma ToggleKeepsOthersInOrder(prev: seq<string>, id: string)
    ensures Without(ToggleComplete(prev, id), id) == Without(prev, id)
  {
    if id in prev {
      WithoutAbsent(Without(prev, id), id);
    } else {
      WithoutAppend(prev, [id], id);
      assert Without([id], id) == [];
    }
  }

  /** A list without duplicates stays without duplicates. */
  lemma TogglePreservesNoDuplicates(prev: seq<string>, id: string)
    requires NoDuplicates(prev)
    ensures NoDuplicates(ToggleComplete(prev, id))
  {
    if id in prev {
      WithoutNoDuplicates(prev, id);
    }
  }

  /** Toggling an absent id twice gives back exactly the original list. */
  lemma ToggleTwiceAbsent(prev: seq<string>, id: string)
    requires id !in prev
    ensures ToggleComplete(ToggleComplete(prev, id), id) == prev
  {
    WithoutAppend(prev, [id], id);
    WithoutAbsent(prev, id);
    assert Without([id], id) == [];
  }

  /** Toggling a present id twice drops every copy of it and puts one at the end. */
  lemma ToggleTwicePresent(prev: seq<string>, id: string)
    requires id in prev
    ensures ToggleComplete(ToggleComplete(prev, id), id) == Without(prev, id) + [id]
  {
  }

  // ---------------------------------------------------------------------------
  // The challenge button
  // ---------------------------------------------------------------------------

  /**
   * The button of a challenge card: on a completed challenge it toggles (so it removes the
   * id); on any other it starts the challenge, which leaves the list as it is.
   */
  function PressChallenge(completed: seq<string>, c: Challenge): (next: seq<string>)
    ensures next == Without(completed, c.id)
    ensures forall x :: x in next ==> x in completed
  {
    if c.id in completed then ToggleComplete(completed, c.id) else WithoutAbsent(completed, c.id); completed
  }

  /** The list after a sequence of button presses. */
  function PressAll(completed: seq<string>, presses: seq<Challenge>): seq<string>
    decreases |presses|
  {
    if presses == [] then completed else PressAll(PressChallenge(completed, presses[0]), presses[1..])
  }

  /**
   * The buttons only ever remove ids; since the list starts empty, it stays empty whatever the
   * user presses.
   */
  lemma {:induction false} PressesOnlyShrink(completed: seq<string>, presses: seq<Challenge>)
    ensures forall x :: x in PressAll(completed, presses) ==> x in completed
    ensures PressAll([], presses) == []
    decreases |presses|
  {
    if presses != [] {
      PressesOnlyShrink(PressChallenge(completed, presses[0]), presses[1..]);
      PressesOnlyShrink([], presses[1..]);
      assert PressChallenge([], presses[0]) == [];
    }
  }

  // ---------------------------------------------------------------------------
  // The progress counter
  // ---------------------------------------------------------------------------

  lemma {:induction false} DistinctCardinality(xs: seq<string>)
    requires NoDuplicates(xs)
    ensures |set x | x in xs| == |xs|
  {
    if xs != [] {
      var rest := xs[1..];
      assert NoDuplicates(rest) by {
        forall i, j | 0 <= i < j < |rest| ensures rest[i] != rest[j] {
          assert rest[i] == xs[i + 1] && rest[j] == xs[j + 1];
        }
      }
      DistinctCardinality(rest);
      assert xs[0] !in rest;
      assert (set x | x in xs) == (set x | x in rest) + {xs[0]};
    }
  }

  /**
   * The progress numerator, `completedChallenges.length`, never exceeds the number of
   * challenges when the list is duplicate-free and holds only challenge ids.
   */
  lemma CompletedAtMostChallenges(completed: seq<string>)
    requires NoDuplicates(completed)
    requires forall x :: x in completed ==> x in ChallengeIds()
    ensures |completed| <= |Challenges|
  {
    ChallengeIdsDistinct();
    DistinctCardinality(completed);
    DistinctCardinality(ChallengeIds());
    assert (set x | x in completed) <= (set x | x in ChallengeIds());
    SubsetCardinality(set x | x in completed, set x | x in ChallengeIds());
  }

  lemma {:induction false} SubsetCardinality(a: set<string>, b: set<string>)
    requires a <= b
    ensures |a| <= |b|
    decreases |b|
  {
    if a != {} {
      var x :| x in a;
      SubsetCardinality(a - {x}, b - {x});
    }
  }
}
