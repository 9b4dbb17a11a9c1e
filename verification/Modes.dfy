/** File modes as `stat` and a plan write them: octal digits, the last three of them permissions. */
module Modes {
  function BareZeros(mode: string): string {
    if mode != "" && mode[0] == '0' then BareZeros(mode[1..]) else mode
  }

  /** A mode as `stat` reports it. */
  function Bare(mode: string): string {
    if BareZeros(mode) == "" then "0" else BareZeros(mode)
  }

  predicate SameMode(a: string, b: string) {
    Bare(a) == Bare(b)
  }

  lemma {:induction false} BareZerosSettle(mode: string)
    ensures BareZeros(BareZeros(mode)) == BareZeros(mode)
  {
    if mode != "" && mode[0] == '0' {
      BareZerosSettle(mode[1..]);
    }
  }

  /** A mode set is the mode found, whatever zeros it was written with. */
  lemma SameModeWhenSet(mode: string)
    ensures SameMode(mode, Bare(mode))
  {
    BareZerosSettle(mode);
    assert "0"[1..] == "";
  }

  lemma {:induction false} BareZerosStart(mode: string)
    ensures BareZeros(mode) != "" ==> BareZeros(mode)[0] != '0'
  {
    if mode != "" && mode[0] == '0' {
      BareZerosStart(mode[1..]);
    }
  }

  /** A mode without leading zeros is as `stat` reports it. */
  lemma BareStays(mode: string)
    requires mode != "" && mode[0] != '0'
    ensures Bare(mode) == mode
  {
  }

  // ---- Set-id bits ----

  /** The digit before the last three of a mode without leading zeros: 4 is set-user-id, 2
      set-group-id, 1 sticky. */
  function Special(bare: string): (d: nat)
    ensures d < 8
  {
    if |bare| >= 4 && '0' <= bare[|bare| - 4] <= '7' then bare[|bare| - 4] as int - '0' as int else 0
  }

  predicate User(digit: nat) {
    digit >= 4
  }

  predicate Group(digit: nat) {
    digit % 4 >= 2
  }

  /** The set-id bits of `had` are among those of `asked`. */
  predicate Among(had: nat, asked: nat) {
    (User(had) ==> User(asked)) && (Group(had) ==> Group(asked))
  }

  /** `asked` with the set-id bits of `had`. */
  function Both(asked: nat, had: nat): nat {
    (if User(asked) || User(had) then 4 else 0) + (if Group(asked) || Group(had) then 2 else 0) + asked % 2
  }

  lemma BothBits(asked: nat, had: nat)
    requires asked < 8 && had < 8
    ensures var both := Both(asked, had);
            && both < 8 && (User(both) <==> User(asked) || User(had)) && (Group(both) <==> Group(asked) || Group(had))
            && (both == asked <==> Among(had, asked)) && Both(asked, both) == both
            && (!Among(had, asked) ==> both > 0 && !Among(both, asked))
  {
  }

  function Digit(d: nat): char
    requires d < 8
  {
    ('0' as int + d) as char
  }

  function LastThree(bare: string): (three: string)
    ensures |three| == 3
  {
    if |bare| >= 3 then bare[|bare| - 3..]
    else if |bare| == 2 then "0" + bare
    else if |bare| == 1 then "00" + bare
    else "000"
  }

  /** A mode with another special digit. */
  function WithSpecial(bare: string, digit: nat): string
    requires digit < 8
  {
    (if |bare| > 4 then bare[..|bare| - 4] else "") + [Digit(digit)] + LastThree(bare)
  }

  lemma WithSpecialHas(bare: string, digit: nat)
    requires 0 < digit < 8 && (bare != "" ==> bare == "0" || bare[0] != '0')
    ensures var mode := WithSpecial(bare, digit);
            Special(mode) == digit && mode != "" && mode[0] != '0'
    ensures WithSpecial(WithSpecial(bare, digit), digit) == WithSpecial(bare, digit)
  {
    var front := if |bare| > 4 then bare[..|bare| - 4] else "";
    var mode := WithSpecial(bare, digit);
    assert mode[|mode| - 4] == Digit(digit);
    assert mode[|mode| - 3..] == LastThree(bare);
    assert mode[..|mode| - 4] == front;
  }

  predicate SetIdsAmong(had: string, asked: string) {
    Among(Special(Bare(had)), Special(Bare(asked)))
  }

  /** What a `chmod` that keeps a directory's set-id bits makes of a directory that had `had`. */
  function WithSetIds(asked: string, had: string): string {
    BothBits(Special(Bare(asked)), Special(Bare(had)));
    if SetIdsAmong(had, asked) then Bare(asked)
    else WithSpecial(Bare(asked), Both(Special(Bare(asked)), Special(Bare(had))))
  }

  lemma BareOfBare(mode: string)
    ensures Bare(Bare(mode)) == Bare(mode)
    ensures Bare(mode) == "0" || Bare(mode)[0] != '0'
  {
    BareZerosSettle(mode);
    BareZerosStart(mode);
    assert "0"[1..] == "";
  }

  /** The mode left has the set-id bits of both, is the one asked for exactly if they were its
      own, and stays when asked for again. */
  lemma KeptSetIds(asked: string, had: string)
    ensures var left := WithSetIds(asked, had);
            && Special(Bare(left)) == Both(Special(Bare(asked)), Special(Bare(had)))
            && (SameMode(asked, left) <==> SetIdsAmong(had, asked))
            && WithSetIds(asked, left) == left
  {
    BareOfBare(asked);
    BothBits(Special(Bare(asked)), Special(Bare(had)));
    if !SetIdsAmong(had, asked) {
      var digit := Both(Special(Bare(asked)), Special(Bare(had)));
      WithSpecialHas(Bare(asked), digit);
      BareStays(WithSetIds(asked, had));
    }
  }

  /** A directory at 2755 asked for 0755 keeps its set-group-id bit. */
  lemma SetGroupIsKept()
    ensures !SetIdsAmong("2755", "0755") && WithSetIds("0755", "2755") == "2755"
  {
    BareStays("2755");
    assert BareZeros("755") == "755" && "0755"[1..] == "755";
    assert Bare("0755") == "755";
    assert Special("2755") == 2 && Special("755") == 0;
    assert LastThree("755") == "755";
    assert WithSpecial("755", 2) == "" + ['2'] + "755";
  }
}
