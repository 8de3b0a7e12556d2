/** The number trick (components/MindReaderGame.tsx): five instruction steps walked
    through with Start, Next and Restart, then a fixed reveal of 5. */
module MindReader {

  /** The five instructions: think of 1..9, double, add ten, halve, subtract the number. */
  const Steps: seq<string> := [
    "স্টেপ ১: আপনার মনে মনে ১ থেকে ৯ এর মধ্যে যেকোনো একটি সংখ্যা ভাবুন।",
    "স্টেপ ২: সংখ্যাটিকে ২ দিয়ে গুণ করুন।",
    "স্টেপ ৩: গুণফলের সাথে ১০ যোগ করুন।",
    "স্টেপ ৪: এখন ফলটিকে ২ দিয়ে ভাগ করুন।",
    "স্টেপ ৫: সবশেষে, এই ভাগফল থেকে আপনি প্রথমে যে সংখ্যাটি ভেবেছিলেন, সেটি বাদ দিন।"]

  /** The number the reveal screen always shows. */
  const RevealedAnswer: int := 5

  /** What the player ends up with after following the steps from `n`. The halving is
      exact because 2n + 10 is even, so JavaScript's real division and Dafny's integer
      division agree here. */
  function FollowSteps(n: int): (answer: int)
    requires 1 <= n <= 9
    ensures answer == RevealedAnswer
  {
    var doubled := n * 2;
    var plusTen := doubled + 10;
    var halved := plusTen / 2;
    halved - n
  }

  /** The three pieces of state the component keeps. */
  class MindReaderGame {
    var currentStep: nat
    var isStarted: bool
    var isResultShown: bool

    /** The step shown is always one of the five. */
    ghost predicate Valid()
      reads this
    {
      currentStep < |Steps|
    }

    constructor ()
      ensures Valid()
      ensures currentStep == 0 && !isStarted && !isResultShown
    {
      currentStep, isStarted, isResultShown := 0, false, false;
    }

    /** handleStart: only the started flag changes. */
    method Start()
      requires Valid()
      modifies this
      ensures Valid()
      ensures isStarted
      ensures currentStep == old(currentStep) && isResultShown == old(isResultShown)
    {
      isStarted := true;
    }

    /** handleNext: advance one step, or, on the last step, reveal the answer. */
    method Next()
      requires Valid()
      modifies this
      ensures Valid()
      ensures old(currentStep) < |Steps| - 1 ==>
        currentStep == old(currentStep) + 1 && isResultShown == old(isResultShown)
      ensures old(currentStep) == |Steps| - 1 ==>
        currentStep == old(currentStep) && isResultShown
      ensures isStarted == old(isStarted)
    {
      if currentStep < |Steps| - 1 {
        currentStep := currentStep + 1;
      } else {
        isResultShown := true;
      }
    }

    /** handleRestart: back to the title screen from any state. */
    method Restart()
      modifies this
      ensures Valid()
      ensures currentStep == 0 && !isStarted && !isResultShown
    {
      currentStep, isStarted, isResultShown := 0, false, false;
    }
  }
}
