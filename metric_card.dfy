/**
 * `MetricCard`: the trend block drawn from the optional percentage `change`, and
 * the hover glow chosen from the card's gradient class.
 */
module MetricCard {
  import opened Wrappers
  import opened JsText

  /** What the trend block holds, left to right. */
  datatype Node = UpIcon | DownIcon | ZeroText | Percent(magnitude: real)

  /** The trend block: its colour class and its children. */
  datatype Trend = Trend(color: string, nodes: seq<Node>)

  const GREEN := "text-neon-green"
  const PINK := "text-neon-pink"
  const MUTED := "text-muted-foreground"

  function Abs(x: real): (r: real)
    ensures r >= 0.0 && (r == x || r == -x)
  {
    if x < 0.0 then -x else x
  }

  /**
   * The value of `change && change > 0` (and of `change && change < 0`) for a
   * supplied change: the number 0 itself when the change is 0, a boolean otherwise.
   */
  datatype Guard = Zero | Flag(b: bool)

  function PositiveGuard(change: real): Guard {
    if change == 0.0 then Zero else Flag(change > 0.0)
  }

  function NegativeGuard(change: real): Guard {
    if change == 0.0 then Zero else Flag(change < 0.0)
  }

  predicate Truthy(g: Guard) {
    g.Flag? && g.b
  }

  /** `{guard && <Icon/>}`: React draws the icon for `true`, nothing for `false`, and the text "0" for the number 0. */
  function Guarded(g: Guard, icon: Node): seq<Node> {
    match g
    case Zero => [ZeroText]
    case Flag(b) => if b then [icon] else []
  }

  /** The trend block exactly as the component writes it. */
  function TrendAsWritten(change: Option<real>): (t: Option<Trend>)
    ensures t.None? <==> change.None?
  {
    if change.None? then None
    else
      var c := change.value;
      var pos, neg := PositiveGuard(c), NegativeGuard(c);
      var color := if Truthy(pos) then GREEN else if Truthy(neg) then PINK else MUTED;
      Some(Trend(color, Guarded(pos, UpIcon) + Guarded(neg, DownIcon) + [Percent(Abs(c))]))
  }

  /** As written, a change of exactly 0 puts two stray "0" texts before "0%". */
  lemma {:induction false} ZeroChangeAsWritten()
    ensures TrendAsWritten(Some(0.0)) == Some(Trend(MUTED, [ZeroText, ZeroText, Percent(0.0)]))
  {
    assert Guarded(Zero, UpIcon) + Guarded(Zero, DownIcon) + [Percent(Abs(0.0))] == [ZeroText, ZeroText, Percent(0.0)];
  }

  /** The trend block with boolean guards: the icons only, never a stray "0". */
  function TrendBlock(change: Option<real>): (t: Option<Trend>)
    ensures t.None? <==> change.None?
    ensures t.Some? ==> ZeroText !in t.value.nodes
    ensures t.Some? ==> |t.value.nodes| >= 1 && t.value.nodes[|t.value.nodes| - 1] == Percent(Abs(change.value))
  {
    if change.None? then None
    else
      var c := change.value;
      var isPositive, isNegative := c > 0.0, c < 0.0;
      var color := if isPositive then GREEN else if isNegative then PINK else MUTED;
      var nodes := (if isPositive then [UpIcon] else []) + (if isNegative then [DownIcon] else []) + [Percent(Abs(c))];
      Some(Trend(color, nodes))
  }

  /** Positive changes are green with only the up icon, negative ones pink with only the down icon, zero muted with neither; the magnitude is never negative. */
  lemma {:induction false} TrendCases(c: real)
    ensures c > 0.0 ==> TrendBlock(Some(c)) == Some(Trend(GREEN, [UpIcon, Percent(c)]))
    ensures c < 0.0 ==> TrendBlock(Some(c)) == Some(Trend(PINK, [DownIcon, Percent(-c)]))
    ensures c == 0.0 ==> TrendBlock(Some(c)) == Some(Trend(MUTED, [Percent(0.0)]))
    ensures TrendBlock(Some(c)).value.nodes[|TrendBlock(Some(c)).value.nodes| - 1].magnitude >= 0.0
  {
    var none: seq<Node> := [];
    if c > 0.0 {
      assert [UpIcon] + none + [Percent(c)] == [UpIcon, Percent(c)];
    } else if c < 0.0 {
      assert none + [DownIcon] + [Percent(-c)] == [DownIcon, Percent(-c)];
    } else {
      assert none + none + [Percent(0.0)] == [Percent(0.0)];
    }
  }

  /** The two blocks agree whenever the change is not 0. */
  lemma {:induction false} TrendAgreesOffZero(change: Option<real>)
    requires change.None? || change.value != 0.0
    ensures TrendAsWritten(change) == TrendBlock(change)
  {
  }

  const GLOW_CYAN := "shadow-neon-cyan"
  const GLOW_PURPLE := "shadow-neon-purple"
  const GLOW_PINK := "shadow-neon-pink"

  /** `gradient.includes('cyan') ? ... : gradient.includes('purple') ? ... : ...`. */
  function Glow(gradient: string): (g: string)
    ensures g == GLOW_CYAN <==> Includes(gradient, "cyan")
    ensures g == GLOW_PURPLE <==> !Includes(gradient, "cyan") && Includes(gradient, "purple")
    ensures g == GLOW_PINK <==> !Includes(gradient, "cyan") && !Includes(gradient, "purple")
  {
    if Includes(gradient, "cyan") then GLOW_CYAN
    else if Includes(gradient, "purple") then GLOW_PURPLE
    else GLOW_PINK
  }

  /** A class containing `word` glows cyan or purple; glowing pink means it names neither colour. */
  lemma {:induction false} GlowNamesColour(gradient: string)
    ensures Glow(gradient) != GLOW_PINK <==> Includes(gradient, "cyan") || Includes(gradient, "purple")
  {
  }

  lemma {:induction false} HasLetter(s: string, word: string, j: nat)
    requires Includes(s, word) && j < |word|
    ensures word[j] in s
  {
    IncludesChars(s, word);
  }

  /** A string that lacks one letter of `word` does not include `word`. */
  lemma {:induction false} NoLetter(s: string, word: string, j: nat)
    requires j < |word| && word[j] !in s
    ensures !Includes(s, word)
  {
    if Includes(s, word) {
      HasLetter(s, word, j);
    }
  }

  /** "bg-gradient-secondary" holds every letter of "cyan", but not the word. */
  lemma {:induction false} SecondaryNotCyan(s: string)
    requires s == "bg-gradient-secondary"
    ensures !Includes(s, "cyan")
  {
    assert 'c' !in s[..14];
    var t := s[14..];
    assert t == "condary" && t[1] == 'o';
    assert !StartsWith(t, "cyan");
    NoLetter(t[1..], "cyan", 0);
    if Includes(s, "cyan") {
      IncludesSkip(s, "cyan", 14);
    }
  }

  /** The part every card gradient class shares. */
  const CARD_GRADIENT := "bg-gradient-"

  lemma {:induction false} SharedPartLetters(p: string)
    requires p == CARD_GRADIENT
    ensures 'c' !in p && 'y' !in p && 'u' !in p && 'p' !in p
  {
  }

  lemma {:induction false} PrimaryNames(g: string)
    requires g == "bg-gradient-primary"
    ensures !Includes(g, "cyan") && !Includes(g, "purple")
  {
    assert g == CARD_GRADIENT + "primary";
    SharedPartLetters(CARD_GRADIENT);
    NoLetter(g, "cyan", 0);
    NoLetter(g, "purple", 1);
  }

  lemma {:induction false} SecondaryNames(g: string)
    requires g == "bg-gradient-secondary"
    ensures !Includes(g, "cyan") && !Includes(g, "purple")
  {
    SecondaryNotCyan(g);
    assert g == CARD_GRADIENT + "secondary";
    SharedPartLetters(CARD_GRADIENT);
    NoLetter(g, "purple", 0);
  }

  lemma {:induction false} SuccessNames(g: string)
    requires g == "bg-gradient-success"
    ensures !Includes(g, "cyan") && !Includes(g, "purple")
  {
    assert g == CARD_GRADIENT + "success";
    SharedPartLetters(CARD_GRADIENT);
    NoLetter(g, "cyan", 1);
    NoLetter(g, "purple", 0);
  }

  lemma {:induction false} WarningNames(g: string)
    requires g == "bg-gradient-warning"
    ensures !Includes(g, "cyan") && !Includes(g, "purple")
  {
    assert g == CARD_GRADIENT + "warning";
    SharedPartLetters(CARD_GRADIENT);
    NoLetter(g, "cyan", 0);
    NoLetter(g, "purple", 0);
  }

  /** Each card gradient the dashboard passes names neither cyan nor purple, so every card glows pink. */
  lemma {:induction false} DashboardCardGlowsPink(gradient: string)
    requires gradient == "bg-gradient-primary" || gradient == "bg-gradient-secondary"
          || gradient == "bg-gradient-success" || gradient == "bg-gradient-warning"
    ensures Glow(gradient) == GLOW_PINK
  {
    if gradient == "bg-gradient-primary" {
      PrimaryNames(gradient);
    } else if gradient == "bg-gradient-secondary" {
      SecondaryNames(gradient);
    } else if gradient == "bg-gradient-success" {
      SuccessNames(gradient);
    } else {
      WarningNames(gradient);
    }
  }
}
