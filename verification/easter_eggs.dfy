/**
 * The site-wide Asterix easter eggs: the Konami code that brings Obelix, and
 * the burst of five quick clicks that scatters eight "Par Toutatis" stars.
 * Both listeners are re-registered whenever the Konami progress changes,
 * which restarts the click counter and drops its pending timer.
 */
module EasterEggs {
  const KonamiCode: seq<string> := [
    "ArrowUp", "ArrowUp", "ArrowDown", "ArrowDown",
    "ArrowLeft", "ArrowRight", "ArrowLeft", "ArrowRight",
    "KeyB", "KeyA"
  ]

  const ClickThreshold: nat := 5
  const StarsPerBurst: nat := 8

  /**
   * `progress` counts the code's keys matched so far; `clicks` is the burst
   * counter, `armed` whether its two-second reset is pending, and `bursts`
   * the star batches still on screen.
   */
  datatype Eggs = Eggs(progress: nat, obelix: bool, clicks: nat, armed: bool, bursts: nat)

  datatype Event =
    | KeyDown(code: string)
    | ObelixTimeout
    | Click
    | ClickTimeout
    | StarsTimeout

  function Initial(): Eggs {
    Eggs(0, false, 0, false, 0)
  }

  predicate Valid(s: Eggs) {
    s.progress <= |KonamiCode| && s.clicks < ClickThreshold
  }

  /** Whether `code` is the next key of the sequence; past the end nothing matches. */
  predicate Matches(progress: nat, code: string) {
    progress < |KonamiCode| && code == KonamiCode[progress]
  }

  /** The progress after one key: one further on a match, back to 0 on anything else. */
  function NextProgress(progress: nat, code: string): (r: nat)
    ensures Matches(progress, code) ==> r == progress + 1
    ensures !Matches(progress, code) ==> r == 0
    ensures progress <= |KonamiCode| ==> r <= |KonamiCode|
  {
    if Matches(progress, code) then progress + 1 else 0
  }

  /** A progress change re-registers the listeners: the click counter starts again. */
  function WithProgress(s: Eggs, p: nat): (r: Eggs)
    ensures r.progress == p && r.obelix == s.obelix && r.bursts == s.bursts
    ensures p == s.progress ==> r == s
    ensures p != s.progress ==> r.clicks == 0 && !r.armed
  {
    if p == s.progress then s else s.(progress := p, clicks := 0, armed := false)
  }

  /** The key listener: Obelix appears on the tenth matching key. */
  function OnKey(s: Eggs, code: string): (r: Eggs)
    ensures r.progress == NextProgress(s.progress, code)
    ensures r.obelix <==> s.obelix || (s.progress == |KonamiCode| - 1 && code == KonamiCode[|KonamiCode| - 1])
    ensures r.bursts == s.bursts
  {
    var r := WithProgress(s, NextProgress(s.progress, code));
    if Matches(s.progress, code) && s.progress == |KonamiCode| - 1 then r.(obelix := true) else r
  }

  /** The click listener: the first click arms the reset, the fifth one bursts and starts over. */
  function OnClick(s: Eggs): (r: Eggs)
    requires s.clicks < ClickThreshold
    ensures r.progress == s.progress && r.obelix == s.obelix
    ensures s.clicks + 1 < ClickThreshold ==> r.clicks == s.clicks + 1 && r.bursts == s.bursts
    ensures s.clicks + 1 >= ClickThreshold ==> r.clicks == 0 && !r.armed && r.bursts == s.bursts + 1
    ensures s.clicks == 0 ==> r.armed
  {
    var n := s.clicks + 1;
    var t := s.(clicks := n, armed := s.armed || n == 1);
    if n >= ClickThreshold then t.(clicks := 0, armed := false, bursts := s.bursts + 1) else t
  }

  function Step(s: Eggs, e: Event): (r: Eggs)
    requires Valid(s)
    ensures Valid(r)
  {
    match e
    case KeyDown(code) => OnKey(s, code)
    case ObelixTimeout => WithProgress(s.(obelix := false), 0)
    case Click => OnClick(s)
    case ClickTimeout => if s.armed then s.(clicks := 0, armed := false) else s
    case StarsTimeout => if s.bursts > 0 then s.(bursts := s.bursts - 1) else s
  }

  /** The stars on screen: eight per burst not yet cleared. */
  function StarCount(s: Eggs): (n: nat)
    ensures n % StarsPerBurst == 0
    ensures n == 0 <==> s.bursts == 0
  {
    StarsPerBurst * s.bursts
  }

  /** The progress after a run of keys. */
  function Feed(p: nat, keys: seq<string>): nat
    decreases |keys|
  {
    if |keys| == 0 then p else Feed(NextProgress(p, keys[0]), keys[1..])
  }

  /** The progress never leaves 0..10. */
  lemma {:induction false} FeedBounded(p: nat, keys: seq<string>)
    requires p <= |KonamiCode|
    ensures Feed(p, keys) <= |KonamiCode|
    decreases |keys|
  {
    if |keys| > 0 {
      FeedBounded(NextProgress(p, keys[0]), keys[1..]);
    }
  }

  /** Feeding the keys of `a` then those of `b`. */
  lemma {:induction false} FeedAppend(p: nat, a: seq<string>, b: seq<string>)
    ensures Feed(p, a + b) == Feed(Feed(p, a), b)
    decreases |a|
  {
    if |a| == 0 {
      assert a + b == b;
    } else {
      assert (a + b)[0] == a[0];
      assert (a + b)[1..] == a[1..] + b;
      FeedAppend(NextProgress(p, a[0]), a[1..], b);
    }
  }

  /**
   * Soundness: from a fresh start, a progress of `k` means the last `k` keys
   * pressed are exactly the first `k` keys of the code.
   */
  lemma {:induction false} FeedSound(keys: seq<string>)
    ensures var k := Feed(0, keys); k <= |keys| && k <= |KonamiCode| && keys[|keys| - k..] == KonamiCode[..k]
    decreases |keys|
  {
    if |keys| > 0 {
      var front := keys[..|keys| - 1];
      var last := keys[|keys| - 1];
      assert keys == front + [last];
      FeedSound(front);
      FeedAppend(0, front, [last]);
      var p := Feed(0, front);
      assert Feed(p, [last]) == NextProgress(p, last);
      var k := NextProgress(p, last);
      if k > 0 {
        assert keys[|keys| - k..] == keys[|keys| - k..|keys| - 1] + [last];
        assert keys[|keys| - k..|keys| - 1] == front[|front| - p..];
        assert KonamiCode[..k] == KonamiCode[..p] + [KonamiCode[p]];
      }
    }
  }

  /** Completeness from a fresh start: the ten keys of the code, in order, reach 10. */
  lemma FeedCode()
    ensures Feed(0, KonamiCode) == |KonamiCode|
  {
  }

  /** From 0, keys that are never the code's first key leave the progress at 0. */
  lemma {:induction false} FeedStaysAtZero(keys: seq<string>)
    requires forall i :: 0 <= i < |keys| ==> keys[i] != KonamiCode[0]
    ensures Feed(0, keys) == 0
    decreases |keys|
  {
    if |keys| > 0 {
      FeedStaysAtZero(keys[1..]);
    }
  }

  /** Past its first two keys the code never repeats its first key. */
  lemma CodeTailAvoidsFirst()
    ensures forall i :: 2 <= i < |KonamiCode| ==> KonamiCode[i] != KonamiCode[0]
  {
    forall i | 2 <= i < |KonamiCode|
      ensures KonamiCode[i] != KonamiCode[0]
    {
      if i < 8 {
        assert KonamiCode[i][5] != KonamiCode[0][5];
      } else {
        assert |KonamiCode[i]| != |KonamiCode[0]|;
      }
    }
  }

  /** No fallback on a mismatch: a third ArrowUp resets to 0 and the rest of the code then never matches. */
  lemma NoFallback()
    ensures Feed(0, ["ArrowUp"] + KonamiCode) == 0
  {
    var keys := ["ArrowUp"] + KonamiCode;
    var up := KonamiCode[0];
    assert up == "ArrowUp" && KonamiCode[1] == up && KonamiCode[2] != up by {
      assert KonamiCode[2][5] != up[5];
    }
    assert keys[0] == up && keys[1..] == KonamiCode;
    assert Feed(0, keys) == Feed(1, KonamiCode);
    assert Feed(1, KonamiCode) == Feed(2, KonamiCode[1..]);
    assert KonamiCode[1..][0] == up && KonamiCode[1..][1..] == KonamiCode[2..];
    assert Feed(2, KonamiCode[1..]) == Feed(0, KonamiCode[2..]);
    CodeTailAvoidsFirst();
    FeedStaysAtZero(KonamiCode[2..]);
  }

  /** The tenth consecutive matching key, and only it, brings Obelix out. */
  lemma ObelixIff(s: Eggs, code: string)
    requires Valid(s) && !s.obelix
    ensures OnKey(s, code).obelix <==> s.progress == 9 && code == "KeyA"
  {
  }

  /** Five clicks from rest give one burst of eight stars and leave the counter at 0. */
  lemma FiveClickBurst(s: Eggs)
    requires s.clicks == 0
    ensures var r := OnClick(OnClick(OnClick(OnClick(OnClick(s)))));
      && r.clicks == 0 && !r.armed
      && StarCount(r) == StarCount(s) + StarsPerBurst
      && r.progress == s.progress && r.obelix == s.obelix
  {
  }

  /** Four clicks then the two-second timeout: nothing shown, the counter back at 0. */
  lemma SlowClicksReset(s: Eggs)
    requires Valid(s) && s.clicks == 0
    ensures var r := Step(OnClick(OnClick(OnClick(OnClick(s)))), ClickTimeout);
      r.clicks == 0 && r.bursts == s.bursts
  {
  }

  /** A key that moves the Konami progress restarts the click counter. */
  lemma KeyRestartsClicks(s: Eggs, code: string)
    requires Valid(s) && NextProgress(s.progress, code) != s.progress
    ensures OnKey(s, code).clicks == 0 && !OnKey(s, code).armed
  {
  }
}
