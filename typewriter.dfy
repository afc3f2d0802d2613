/** `Typewriter`: reveals a text one character per interval tick and calls its
    completion callback once the whole text has been shown. */
module TextReveal {
  import opened Seqs

  /** `text.slice(0, k)`: the prefix of length `k`, clamped to the text. */
  function Prefix(text: string, k: nat): (s: string)
    ensures |s| == Min(k, |text|)
    ensures s <= text
  {
    text[..Min(k, |text|)]
  }

  /** Later frames extend earlier ones. */
  lemma PrefixGrows(text: string, j: nat, k: nat)
    requires j <= k
    ensures Prefix(text, j) <= Prefix(text, k)
    ensures |Prefix(text, j)| <= |Prefix(text, k)|
  {
  }

  class Typewriter {
    const text: string
    /** The interval's counter `i`. */
    var i: nat
    var displayText: string
    /** Whether the interval is still installed. Unmounting the line also
        clears it in the source; that is not modelled, since a line that is
        gone is never ticked or remounted. */
    var running: bool

    ghost predicate Valid()
      reads this
    {
      && i <= |text| + 1
      && displayText == Prefix(text, i)
      && (running <==> i <= |text|)
    }

    /** Mounting: empty display, counter 0, interval installed. */
    constructor (text: string)
      ensures Valid() && this.text == text
      ensures i == 0 && displayText == "" && running
    {
      this.text := text;
      i := 0;
      displayText := "";
      running := true;
    }

    /** One interval callback: show `text.slice(0, i + 1)`, advance `i`, and
        once `i` passes the length clear the interval and report completion.
        A cleared interval never calls back, so a tick after that changes nothing. */
    method Tick() returns (completed: bool)
      requires Valid()
      modifies this
      ensures Valid()
      ensures old(running) ==> i == old(i) + 1 && displayText == Prefix(text, i)
      ensures !old(running) ==> i == old(i) && displayText == old(displayText) && !running
      ensures old(displayText) <= displayText
      ensures completed <==> old(running) && !running
      ensures completed ==> i == |text| + 1 && displayText == text
    {
      if !running {
        return false;
      }
      displayText := text[..Min(i + 1, |text|)];
      i := i + 1;
      completed := i > |text|;
      if completed {
        running := false;
      }
    }
  }

  /** Drive a freshly mounted typewriter until its interval stops, then tick
      once more: frame `k` (counting from 1) shows the prefix of length
      `min(k, |text|)`, completion is reported exactly once, at tick
      `|text| + 1`, and the extra tick shows the same full text. */
  method RevealAll(text: string) returns (frames: seq<string>, completedAt: seq<nat>)
    ensures |frames| == |text| + 2
    ensures forall k :: 0 <= k < |frames| ==> frames[k] == Prefix(text, k + 1)
    ensures forall k :: 0 <= k < |frames| ==> frames[k] <= text
    ensures completedAt == [|text| + 1]
  {
    var w := new Typewriter(text);
    frames, completedAt := [], [];
    while w.running
      invariant fresh(w) && w.Valid() && w.text == text
      invariant |frames| == w.i
      invariant forall k :: 0 <= k < |frames| ==> frames[k] == Prefix(text, k + 1)
      invariant completedAt == if w.running then [] else [|text| + 1]
      decreases |text| + 1 - w.i
    {
      var done := w.Tick();
      frames := frames + [w.displayText];
      if done {
        completedAt := completedAt + [w.i];
      }
    }
    var again := w.Tick();
    var tick := w.i;
    frames := frames + [w.displayText];
    completedAt := completedAt + (if again then [tick] else []);
  }
}
