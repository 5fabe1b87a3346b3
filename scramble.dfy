/** The hero-title text scramble: every 30 ms the element shows a frame in
    which a growing prefix of the original text is revealed, spaces stay
    spaces and every other character is a random glyph; after three frames
    per character the original text is put back and the timer stops. */
module Scramble {
  import opened Random

  /** The glyphs a scrambled position can show (`this.chars`): seventeen
      symbols, the upper- and lower-case letters and the digits. */
  const Glyphs: string := Symbols + Upper + Lower + Digits
  const Symbols: string := "!<>-_\\/=+*^?#@$%&"
  const Upper: string := "ABCDEFGHIJKLMNOPQRSTUVWXYZ"
  const Lower: string := "abcdefghijklmnopqrstuvwxyz"
  const Digits: string := "0123456789"

  /** `Math.floor(Math.random() * this.chars.length)`. */
  function Pick(r: real): (k: nat)
    requires IsRandom(r)
    ensures k < |Glyphs|
  {
    var n := |Glyphs| as real;
    assert 0.0 <= r * n < n by {
      assert r * n < 1.0 * n;
    }
    (r * n).Floor
  }

  /** `index < iteration / 3`, where the division is on doubles. */
  predicate Revealed(index: int, iteration: int)
  {
    3 * index < iteration
  }

  /** The text the element shows in frame `iteration`; `rs[i]` is the
      random value a scrambled position `i` consumes. */
  function Frame(text: string, iteration: nat, rs: seq<real>): (frame: string)
    requires |rs| == |text| && AllRandom(rs)
    ensures |frame| == |text|
    ensures forall i :: 0 <= i < |text| && Revealed(i, iteration) ==> frame[i] == text[i]
    ensures forall i :: 0 <= i < |text| && text[i] == ' ' ==> frame[i] == ' '
    ensures forall i :: 0 <= i < |text| && !Revealed(i, iteration) && text[i] != ' ' ==>
              frame[i] == Glyphs[Pick(rs[i])]
  {
    seq(|text|, i requires 0 <= i < |text| =>
      if Revealed(i, iteration) then text[i]
      else if text[i] == ' ' then ' '
      else Glyphs[Pick(rs[i])])
  }

  /** A frame shows a space exactly where the text has one, and every
      position not yet revealed shows the text's space or a glyph. */
  lemma FrameSpaces(text: string, iteration: nat, rs: seq<real>)
    requires |rs| == |text| && AllRandom(rs)
    ensures var frame := Frame(text, iteration, rs);
            forall i :: 0 <= i < |text| ==>
              && (frame[i] == ' ' <==> text[i] == ' ')
              && (!Revealed(i, iteration) && text[i] != ' ' ==> frame[i] in Glyphs)
  {
    assert ' ' !in Symbols && ' ' !in Upper && ' ' !in Lower && ' ' !in Digits;
  }

  /** Once the iteration exceeds three times the last index, the frame is
      the original text: the last two frames of a run already show it. */
  lemma FullyRevealed(text: string, iteration: nat, rs: seq<real>)
    requires |rs| == |text| && AllRandom(rs)
    requires 3 * (|text| - 1) < iteration
    ensures Frame(text, iteration, rs) == text
  {
    var frame := Frame(text, iteration, rs);
    forall i | 0 <= i < |text| ensures frame[i] == text[i] {
      assert Revealed(i, iteration);
    }
  }

  /** Frames reveal a growing prefix: a position revealed in one frame is
      revealed, with the same character, in every later frame. */
  lemma RevealIsMonotone(text: string, k1: nat, k2: nat, rs1: seq<real>, rs2: seq<real>, i: nat)
    requires |rs1| == |text| && AllRandom(rs1)
    requires |rs2| == |text| && AllRandom(rs2)
    requires k1 <= k2 && i < |text| && Revealed(i, k1)
    ensures Frame(text, k1, rs1)[i] == Frame(text, k2, rs2)[i] == text[i]
  {
  }

  class TextScramble {
    /** The element's text when the effect was created. */
    const original: string
    /** The element's current `textContent`. */
    var content: string
    var iteration: nat
    /** The interval timer is set. */
    var running: bool

    /** `3 * length`: the frame count after which the timer stops. */
    function TotalIterations(): nat
    {
      3 * |original|
    }

    constructor (text: string)
      ensures original == text && content == text
      ensures iteration == 0 && !running
    {
      original := text;
      content := text;
      iteration := 0;
      running := false;
    }

    /** `animate()`: reset the frame counter and start the timer. */
    method Animate()
      modifies this
      ensures iteration == 0 && running && content == old(content)
    {
      iteration := 0;
      running := true;
    }

    /** One firing of the interval timer. */
    method Step(rs: seq<real>)
      requires running
      requires |rs| == |original| && AllRandom(rs)
      modifies this
      ensures iteration == old(iteration) + 1
      ensures running <==> iteration < TotalIterations()
      ensures content == if running then Frame(original, old(iteration), rs) else original
    {
      content := Frame(original, iteration, rs);
      iteration := iteration + 1;
      if iteration >= TotalIterations() {
        content := original;
        running := false;
      }
    }

    /** `animate()` followed by every firing of its timer, the t-th firing
        using the random values `frames[t]`: the timer fires
        max(1, 3 * length) times and the element ends with its original text. */
    method Run(frames: seq<seq<real>>) returns (firings: nat)
      requires |frames| >= TotalIterations() + 1
      requires forall t :: 0 <= t < |frames| ==> |frames[t]| == |original| && AllRandom(frames[t])
      modifies this
      ensures firings == if |original| == 0 then 1 else TotalIterations()
      ensures !running && content == original
    {
      Animate();
      firings := 0;
      while running
        invariant iteration == firings
        invariant running ==> firings < TotalIterations() || firings == 0
        invariant !running ==> content == original && firings >= 1 && firings >= TotalIterations()
        invariant firings <= if |original| == 0 then 1 else TotalIterations()
        decreases TotalIterations() + 1 - firings
      {
        Step(frames[firings]);
        firings := firings + 1;
      }
    }
  }
}
