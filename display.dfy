/**
 * The display sink, `MainWindow::showText`, as a function on the text of
 * the display: insert a newline and a rule of 30 asterisks, clear everything
 * if "Clear text on opening file" is checked, then insert the message.
 * Insertion always happens at the end of the text.
 */
module Display {

  const RuleWidth: nat := 30

  /** `n` copies of `c`, as `QString::repeated` builds them. */
  function Repeat(c: char, n: nat): (s: string)
    ensures |s| == n
    ensures forall k :: 0 <= k < n ==> s[k] == c
  {
    if n == 0 then [] else Repeat(c, n - 1) + [c]
  }

  /** The separator inserted before every message: a newline and the rule. */
  function Separator(): (s: string)
    ensures |s| == 1 + RuleWidth && s[0] == '\n'
    ensures forall k :: 1 <= k < |s| ==> s[k] == '*'
  {
    "\n" + Repeat('*', RuleWidth)
  }

  /**
   * The text after one call: the message alone when clearing (the separator
   * just inserted is cleared with the rest), else the old text, untouched,
   * followed by the separator and the message.
   */
  function AfterShow(before: string, clear: bool, message: string): (after: string)
    ensures clear ==> after == message
    ensures !clear ==> before <= after && after[|before|..] == Separator() + message
  {
    var separated := before + Separator();
    var kept := if clear then [] else separated;
    kept + message
  }

  /** One call of `showText`: the message and the state of the checkbox at that moment. */
  datatype Show = Show(message: string, clear: bool)

  /** The text after a series of calls, earliest first. */
  function Replay(before: string, shows: seq<Show>): string
    decreases |shows|
  {
    if shows == [] then before
    else Replay(AfterShow(before, shows[0].clear, shows[0].message), shows[1..])
  }

  /** Each message preceded by a separator, in order. */
  function Blocks(shows: seq<Show>): string
    decreases |shows|
  {
    if shows == [] then [] else Separator() + shows[0].message + Blocks(shows[1..])
  }

  /** Without clearing, every earlier text survives and each message follows its own separator. */
  lemma {:induction false} ReplayWithoutClearing(before: string, shows: seq<Show>)
    requires forall k :: 0 <= k < |shows| ==> !shows[k].clear
    ensures Replay(before, shows) == before + Blocks(shows)
    decreases |shows|
  {
    if shows != [] {
      var next := AfterShow(before, false, shows[0].message);
      assert next == before + (Separator() + shows[0].message);
      ReplayWithoutClearing(next, shows[1..]);
    }
  }

  /**
   * After a clearing call, the text is that call's message followed by the
   * blocks of the later calls: nothing before it survives, not even its
   * own separator.
   */
  lemma {:induction false} ReplayFromLastClear(before: string, shows: seq<Show>, j: nat)
    requires j < |shows| && shows[j].clear
    requires forall k :: j < k < |shows| ==> !shows[k].clear
    ensures Replay(before, shows) == shows[j].message + Blocks(shows[j + 1..])
    decreases j
  {
    var next := AfterShow(before, shows[0].clear, shows[0].message);
    if j == 0 {
      ReplayWithoutClearing(next, shows[1..]);
    } else {
      assert shows[1..][j - 1] == shows[j] && shows[1..][j..] == shows[j + 1..];
      ReplayFromLastClear(next, shows[1..], j - 1);
    }
  }

  /** Two calls without clearing leave both messages on display, each after a separator. */
  lemma TwoShowsKeepBoth(before: string, first: string, second: string)
    ensures Replay(before, [Show(first, false), Show(second, false)])
         == before + Separator() + first + Separator() + second
  {
    var shows := [Show(first, false), Show(second, false)];
    ReplayWithoutClearing(before, shows);
    assert shows[1..] == [Show(second, false)] && shows[1..][1..] == [];
    assert Blocks(shows[1..]) == Separator() + second + Blocks([]);
    assert Blocks(shows) == Separator() + first + (Separator() + second);
  }
}
