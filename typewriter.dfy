/** The `useTypewriter` hook (hooks/useTypewriter.ts): types a phrase one character per step,
    holds it, erases it, and moves on to the next phrase, cyclically. One call of `Step` is
    one run of the first effect together with the timeout it schedules; the speeds and the
    delay only say when a step happens and are left out. */
module Typewriter {
  import opened Text

  /** `phrase.substring(0, subIndex)`. */
  function Shown(phrase: string, subIndex: int): (t: string)
    ensures StartsWith(phrase, t)
    ensures subIndex >= |phrase| ==> t == phrase
    ensures 0 <= subIndex <= |phrase| ==> |t| == subIndex
    ensures subIndex <= 0 ==> t == ""
  {
    JsSubstring(phrase, 0, subIndex)
  }

  class Typewriter {
    const phrases: seq<string>
    var index: int
    var subIndex: int
    var isDeleting: bool
    var text: string

    /** The index names a phrase, the position lies between 0 and one past the phrase's end,
        and the text is the shown prefix of that phrase. */
    ghost predicate Valid()
      reads this
    {
      && phrases != []
      && 0 <= index < |phrases|
      && 0 <= subIndex <= |phrases[index]| + 1
      && text == Shown(phrases[index], subIndex)
    }

    /** The initial state; an empty phrase list makes the text effect fail. */
    constructor (phrases: seq<string>)
      requires phrases != []
      ensures this.phrases == phrases && Valid()
      ensures index == 0 && subIndex == 0 && !isDeleting && text == ""
    {
      this.phrases := phrases;
      index := 0;
      subIndex := 0;
      isDeleting := false;
      text := "";
    }

    /** One step, followed by the text effect. */
    method Step()
      requires phrases != [] && index >= 0
      modifies this`index, this`subIndex, this`isDeleting, this`text
      // an index past the list goes back to the first phrase
      ensures old(index) >= |phrases| ==>
                index == 0 && subIndex == old(subIndex) && isDeleting == old(isDeleting)
      ensures old(index) < |phrases| ==>
                if old(subIndex) == |phrases[old(index)]| + 1 && !old(isDeleting) then
                  // fully typed: start erasing, position unchanged
                  index == old(index) && subIndex == old(subIndex) && isDeleting
                else if old(subIndex) == 0 && old(isDeleting) then
                  // fully erased: the next phrase, cyclically
                  index == (old(index) + 1) % |phrases| && subIndex == 0 && !isDeleting
                else
                  index == old(index) && isDeleting == old(isDeleting) &&
                  subIndex == old(subIndex) + (if old(isDeleting) then -1 else 1)
      ensures 0 <= index < |phrases| && text == Shown(phrases[index], subIndex)
      ensures old(Valid()) ==> Valid()
    {
      if index >= |phrases| {
        index := 0;
      } else if subIndex == |phrases[index]| + 1 && !isDeleting {
        isDeleting := true;
      } else if subIndex == 0 && isDeleting {
        isDeleting := false;
        index := (index + 1) % |phrases|;
      } else {
        subIndex := subIndex + (if isDeleting then -1 else 1);
      }
      text := Shown(phrases[index], subIndex);
    }

    /** From the start of a phrase, the whole phrase is typed, erased, and the next phrase
        is reached at its start, after two steps per character and four more. */
    method Cycle() returns (steps: nat)
      requires Valid() && subIndex == 0 && !isDeleting
      modifies this`index, this`subIndex, this`isDeleting, this`text
      ensures Valid() && subIndex == 0 && !isDeleting
      ensures index == (old(index) + 1) % |phrases|
      ensures steps == 2 * |phrases[old(index)]| + 4
    {
      var i0 := index;
      var n := |phrases[index]|;
      steps := 0;
      while subIndex < n + 1
        invariant Valid() && index == i0 && !isDeleting
        invariant steps == subIndex
        decreases n + 1 - subIndex
      {
        Step();
        steps := steps + 1;
      }
      Step();
      steps := steps + 1;
      while subIndex > 0
        invariant Valid() && index == i0 && isDeleting
        invariant steps == n + 2 + (n + 1 - subIndex)
        decreases subIndex
      {
        Step();
        steps := steps + 1;
      }
      Step();
      steps := steps + 1;
    }
  }
}
