/** The internal state variables the routine keeps between increments in `statev`:
    where each one sits, how they are read at the start of an increment and how they
    are written back at its end. */
module StateLayout {
  import opened Algebra
  import opened Material

  /** The number of state variables the routine reads and writes. */
  const Count := 17

  /** The initial temperature, the total, forward and reverse martensite volume
      fractions, the transformation strain and the calibrated constants. */
  datatype StateVars = StateVars(Tinit: real, xi: real, ET: Vec6, xiF: real, xiR: real, c: Constants)

  /** Where each state variable sits: `T_init` at 0, `xi` at 1, the six components of
      `ET` at 2 to 7, `xiF` and `xiR` at 8 and 9, and `rhoDs0`, `rhoDE0`, `D`, `a1`,
      `a2`, `a3`, `Y0t` at 10 to 16. */
  function Layout(s: StateVars): (l: seq<real>)
    ensures |l| == Count
  {
    [s.Tinit, s.xi, s.ET.v0, s.ET.v1, s.ET.v2, s.ET.v3, s.ET.v4, s.ET.v5, s.xiF, s.xiR,
     s.c.rhoDs0, s.c.rhoDE0, s.c.D, s.c.a1, s.c.a2, s.c.a3, s.c.Y0t]
  }

  /** Reads the state variables from the first seventeen entries of `statev`. */
  function Unpack(statev: seq<real>): (s: StateVars)
    requires |statev| >= Count
    ensures Layout(s) == statev[..Count]
  {
    StateVars(statev[0], statev[1],
              Vec6(statev[2], statev[3], statev[4], statev[5], statev[6], statev[7]),
              statev[8], statev[9],
              Constants(statev[10], statev[11], statev[12], statev[13], statev[14], statev[15], statev[16]))
  }

  /** Different state variables occupy different entries. */
  lemma LayoutInjective(s: StateVars, t: StateVars)
    requires Layout(s) == Layout(t)
    ensures s == t
  {
    var l, m := Layout(s), Layout(t);
    assert l[0] == m[0] && l[1] == m[1] && l[8] == m[8] && l[9] == m[9];
    assert l[2] == m[2] && l[3] == m[3] && l[4] == m[4] && l[5] == m[5] && l[6] == m[6] && l[7] == m[7];
    assert l[10] == m[10] && l[11] == m[11] && l[12] == m[12] && l[13] == m[13];
    assert l[14] == m[14] && l[15] == m[15] && l[16] == m[16];
  }

  /** `statev` after the write-back: the evolving variables (entries 0 to 9) always take
      their new values; the constants (entries 10 to 16) only on the first call, when
      they have just been calibrated; every entry past 16 keeps its value. */
  function Packed(statev: seq<real>, s: StateVars, start: bool): (r: seq<real>)
    requires |statev| >= Count
    ensures |r| == |statev|
  {
    var l := Layout(s);
    l[..10] + (if start then l[10..] else statev[10..Count]) + statev[Count..]
  }

  /** Reading back what was written gives the new state, except that outside the first
      call the constants are the ones already stored; and the entries past the state
      variables are never touched. */
  lemma UnpackPacked(statev: seq<real>, s: StateVars, start: bool)
    requires |statev| >= Count
    ensures Unpack(Packed(statev, s, start)) == if start then s else s.(c := Unpack(statev).c)
    ensures Packed(statev, s, start)[Count..] == statev[Count..]
  {
    var r := Packed(statev, s, start);
    var expected := if start then s else s.(c := Unpack(statev).c);
    assert r[..Count] == Layout(expected) by {
      forall i | 0 <= i < Count
        ensures r[i] == Layout(expected)[i]
      {
        if i >= 10 && !start {
          assert r[i] == statev[i] == Layout(Unpack(statev))[i];
        }
      }
    }
    LayoutInjective(Unpack(r), expected);
  }

  /** Writing back the state that was read changes nothing. */
  lemma PackedUnpack(statev: seq<real>, start: bool)
    requires |statev| >= Count
    ensures Packed(statev, Unpack(statev), start) == statev
  {
    var r := Packed(statev, Unpack(statev), start);
    assert r[..Count] == statev[..Count];
    assert r == r[..Count] + r[Count..];
    assert statev == statev[..Count] + statev[Count..];
  }

  /** The write-back at the end of the increment, entry by entry. */
  method WriteBack(statev: array<real>, s: StateVars, start: bool)
    requires statev.Length >= Count
    modifies statev
    ensures statev[..] == Packed(old(statev[..]), s, start)
  {
    ghost var before := statev[..];
    statev[0] := s.Tinit;
    statev[1] := s.xi;
    statev[2] := s.ET.v0;
    statev[3] := s.ET.v1;
    statev[4] := s.ET.v2;
    statev[5] := s.ET.v3;
    statev[6] := s.ET.v4;
    statev[7] := s.ET.v5;
    statev[8] := s.xiF;
    statev[9] := s.xiR;
    if start {
      statev[10] := s.c.rhoDs0;
      statev[11] := s.c.rhoDE0;
      statev[12] := s.c.D;
      statev[13] := s.c.a1;
      statev[14] := s.c.a2;
      statev[15] := s.c.a3;
      statev[16] := s.c.Y0t;
    }
    forall i | 0 <= i < statev.Length
      ensures statev[i] == Packed(before, s, start)[i]
    {
      PackedAt(before, s, start, i);
    }
    assert statev[..] == Packed(before, s, start);
  }

  /** Entry `i` of the written-back vector. */
  lemma PackedAt(statev: seq<real>, s: StateVars, start: bool, i: int)
    requires |statev| >= Count && 0 <= i < |statev|
    ensures Packed(statev, s, start)[i] ==
      if i < 10 || (i < Count && start) then Layout(s)[i] else statev[i]
  {
  }
}
