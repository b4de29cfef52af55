/** The combo part of the HUD (`Update` in Assets/Scripts/UI_Updater.cs):
    the trick description and the "pool x multiplier" text. The score, lap
    and clock texts are float formatting and not modelled. */
module UiUpdater {
  import opened GameData

  const Separator: string := " + "
  const Ellipsis: string := " + ..."

  /** How many trick names the description spells out. */
  const MaxShownNames: nat := 4

  /** The names separated by " + ". */
  function Join(names: seq<string>): string
    decreases |names|
  {
    if |names| == 0 then ""
    else if |names| == 1 then names[0]
    else Join(names[..|names| - 1]) + Separator + names[|names| - 1]
  }

  /** What the description should read: the first four names joined, and
      " + ..." when more were done. */
  function TrickDescription(names: seq<string>): string
  {
    if |names| <= MaxShownNames then Join(names)
    else Join(names[..MaxShownNames]) + Ellipsis
  }

  /** `UI_Updater.Update`'s loop over the names, stopping after four. */
  method BuildTrickDescription(names: seq<string>) returns (r: string)
    ensures r == TrickDescription(names)
  {
    var description := "";
    var i := 0;
    while i < |names|
      invariant 0 <= i <= |names| && i <= MaxShownNames
      invariant description == Join(names[..i])
    {
      if i > 3 {
        assert names[..i] == names[..MaxShownNames];
        r := description + Ellipsis;
        return;
      }
      if i > 0 {
        description := description + Separator;
      }
      description := description + names[i];
      assert names[..i + 1][..i] == names[..i];
      i := i + 1;
    }
    assert names[..i] == names;
    r := description;
  }

  /** With one to four names, the description is exactly their join, and
      it starts with the first name and ends with the last. */
  lemma ShortComboIsJoined(names: seq<string>)
    requires 1 <= |names| <= MaxShownNames
    ensures TrickDescription(names) == Join(names)
    ensures |names| == 1 ==> TrickDescription(names) == names[0]
    ensures |names| > 1 ==> TrickDescription(names) == Join(names[..|names| - 1]) + Separator + names[|names| - 1]
  {
  }

  /** Only the first four names and whether there are more decide the
      description: names from index 4 on never show. */
  lemma DescriptionIgnoresTail(a: seq<string>, b: seq<string>)
    requires |a| > MaxShownNames && |b| > MaxShownNames
    requires a[..MaxShownNames] == b[..MaxShownNames]
    ensures TrickDescription(a) == TrickDescription(b)
  {
  }

  /** Decimal digits of a natural number. */
  function NatToString(n: nat): (r: string)
    ensures |r| > 0
    ensures forall i :: 0 <= i < |r| ==> '0' <= r[i] <= '9'
    decreases n
  {
    var digit := [('0' as int + n % 10) as char];
    if n < 10 then digit else NatToString(n / 10) + digit
  }

  /** The value of a digit string. */
  function DigitsValue(s: string): int
    decreases |s|
  {
    if |s| == 0 then 0 else 10 * DigitsValue(s[..|s| - 1]) + (s[|s| - 1] as int - '0' as int)
  }

  /** Reading the digits back gives the number. */
  lemma {:induction false} NatToStringRoundTrip(n: nat)
    ensures DigitsValue(NatToString(n)) == n
    decreases n
  {
    var digit := [('0' as int + n % 10) as char];
    if n >= 10 {
      NatToStringRoundTrip(n / 10);
      var s := NatToString(n / 10) + digit;
      assert s[..|s| - 1] == NatToString(n / 10);
    }
  }

  function IntToString(i: int): string
  {
    if i < 0 then "-" + NatToString(-i) else NatToString(i)
  }

  /** The two combo texts of the HUD. */
  datatype TrickHud = TrickHud(description: string, scoreText: string)

  /** The combo texts for the current game data: both empty without tricks,
      else the description and floor(pool) " x " multiplier. */
  function ComboHud(g: GameData): (r: TrickHud)
    ensures |g.trickNames| == 0 ==> r == TrickHud("", "")
    ensures |g.trickNames| > 0 ==> r.description == TrickDescription(g.trickNames)
    ensures |g.trickNames| > 0 ==> r.scoreText == IntToString(g.trickPointPool.Floor) + " x " + IntToString(g.trickMultiplier)
  {
    if |g.trickNames| > 0 then
      TrickHud(TrickDescription(g.trickNames), IntToString(g.trickPointPool.Floor) + " x " + IntToString(g.trickMultiplier))
    else TrickHud("", "")
  }

  /** After a cash-in the combo part of the HUD is blank. */
  lemma HudBlankAfterCashIn(g: GameData)
    ensures ComboHud(CalculateTrickScore(g)) == TrickHud("", "")
  {
  }

  /** Five tricks show four names and the ellipsis. */
  lemma FiveTrickDescription()
    ensures TrickDescription(["a", "b", "c", "d", "e"]) == "a + b + c + d + ..."
  {
    var names := ["a", "b", "c", "d", "e"];
    assert names[..MaxShownNames] == ["a", "b", "c", "d"];
    assert ["a", "b", "c", "d"][..3] == ["a", "b", "c"];
    assert ["a", "b", "c"][..2] == ["a", "b"];
    assert ["a", "b"][..1] == ["a"];
  }
}
