/** drm_hdmi.cpp: which of a monitor's modes are listed, which is preferred and which is driven. */
module HdmiTiming {

  // HDMI_TIMING_MAX, PREFERRED_VREFRESH, DRM_MODE_FLAG_INTERLACE
  const TIMING_MAX := 128
  const PREFERRED_VREFRESH := 60
  const FLAG_INTERLACE := 16

  /** The bits of a mode's flags that are looked at, and the rest. */
  datatype Flags = Flags(interlaced: bool, wide: bool, standard: bool, rest: int)

  // drmModeModeInfo; `preferred` is bit DRM_MODE_TYPE_PREFERRED of its type
  datatype ModeInfo = ModeInfo(hdisplay: nat, vdisplay: nat, vrefresh: nat, flags: Flags, preferred: bool)

  // MDSHDMITiming
  datatype Timing = Timing(refresh: nat, width: int, height: int, interlace: int, ratio: int)

  const NO_TIMING := Timing(0, 0, 0, 0, 0)

  // drm_is_preferred_flags: 16:9 and progressive
  predicate IsPreferredFlags(flags: Flags) {
    flags.wide && !flags.interlaced
  }

  function Ratio(flags: Flags): int {
    if flags.wide then 2 else if flags.standard then 1 else 0
  }

  function TimingOf(m: ModeInfo): Timing {
    Timing(m.vrefresh, m.hdisplay, m.vdisplay, if m.flags.interlaced then FLAG_INTERLACE else 0, Ratio(m.flags))
  }

  // ---------- the list of distinct modes ----------

  datatype Key = Key(width: nat, height: nat, refresh: nat, interlaced: bool, wide: bool, standard: bool)

  function KeyOf(m: ModeInfo): Key {
    Key(m.hdisplay, m.vdisplay, m.vrefresh, m.flags.interlaced, m.flags.wide, m.flags.standard)
  }

  ghost predicate IsFirst(modes: seq<ModeInfo>, i: nat)
    requires i < |modes|
  {
    forall j :: 0 <= j < i ==> KeyOf(modes[j]) != KeyOf(modes[i])
  }

  /** The positions below `n` whose key does not occur before, in order. */
  ghost function Firsts(modes: seq<ModeInfo>, n: nat): (s: seq<nat>)
    requires n <= |modes|
    ensures |s| <= n
    ensures forall v :: 0 <= v < |s| ==> s[v] < n && IsFirst(modes, s[v])
  {
    if n == 0 then [] else Firsts(modes, n - 1) + if IsFirst(modes, n - 1) then [n - 1] else []
  }

  ghost function Keys(modes: seq<ModeInfo>): set<Key> {
    set i | 0 <= i < |modes| :: KeyOf(modes[i])
  }

  ghost predicate In(modes: seq<ModeInfo>, s: seq<nat>) {
    forall v :: 0 <= v < |s| ==> s[v] < |modes|
  }

  /** In order of position, no key twice. */
  ghost predicate NoKeyTwice(modes: seq<ModeInfo>, s: seq<nat>)
    requires In(modes, s)
  {
    forall u, v :: 0 <= u < v < |s| ==> s[u] < s[v] && KeyOf(modes[s[u]]) != KeyOf(modes[s[v]])
  }

  /** The key of the mode at `i` is listed at its first position. */
  ghost predicate IsListed(modes: seq<ModeInfo>, s: seq<nat>, i: nat)
    requires In(modes, s) && i < |modes|
  {
    exists v :: 0 <= v < |s| && s[v] <= i && KeyOf(modes[s[v]]) == KeyOf(modes[i])
  }

  ghost predicate AllListed(modes: seq<ModeInfo>, s: seq<nat>, n: nat)
    requires In(modes, s) && n <= |modes|
  {
    forall i :: 0 <= i < n ==> IsListed(modes, s, i)
  }

  /** Every key is listed, once, where it first occurs; the length of the list is the number of keys. */
  lemma {:induction false} FirstsListEachKeyOnce(modes: seq<ModeInfo>, n: nat)
    requires n <= |modes|
    ensures NoKeyTwice(modes, Firsts(modes, n))
    ensures AllListed(modes, Firsts(modes, n), n)
    ensures |Firsts(modes, n)| == |Keys(modes[..n])|
  {
    if n == 0 {
    } else {
      FirstsListEachKeyOnce(modes, n - 1);
      FirstsGrow(modes, n);
      KeysGrow(modes, n);
    }
  }

  lemma FirstsGrow(modes: seq<ModeInfo>, n: nat)
    requires 0 < n <= |modes| && NoKeyTwice(modes, Firsts(modes, n - 1))
    requires AllListed(modes, Firsts(modes, n - 1), n - 1)
    ensures NoKeyTwice(modes, Firsts(modes, n))
    ensures AllListed(modes, Firsts(modes, n), n)
  {
    var r, s := Firsts(modes, n - 1), Firsts(modes, n);
    assert forall v :: 0 <= v < |r| ==> s[v] == r[v];
    forall i | 0 <= i < n
      ensures IsListed(modes, s, i)
    {
      if i < n - 1 {
        assert IsListed(modes, r, i);
        var v :| 0 <= v < |r| && r[v] <= i && KeyOf(modes[r[v]]) == KeyOf(modes[i]);
        assert s[v] == r[v];
      } else if IsFirst(modes, n - 1) {
        assert s[|r|] == n - 1;
      } else {
        var j :| 0 <= j < n - 1 && KeyOf(modes[j]) == KeyOf(modes[n - 1]);
        assert IsListed(modes, r, j);
        var v :| 0 <= v < |r| && r[v] <= j && KeyOf(modes[r[v]]) == KeyOf(modes[j]);
        assert s[v] == r[v];
      }
    }
  }

  lemma KeysGrow(modes: seq<ModeInfo>, n: nat)
    requires 0 < n <= |modes|
    ensures |Keys(modes[..n])| == |Keys(modes[..n - 1])| + if IsFirst(modes, n - 1) then 1 else 0
  {
    var a, b, m := modes[..n - 1], modes[..n], modes[n - 1];
    assert forall i :: 0 <= i < n - 1 ==> b[i] == a[i] == modes[i];
    assert b[n - 1] == m;
    assert Keys(b) == Keys(a) + {KeyOf(m)};
    if IsFirst(modes, n - 1) {
      assert KeyOf(m) !in Keys(a);
    } else {
      var j :| 0 <= j < n - 1 && KeyOf(modes[j]) == KeyOf(m);
      assert KeyOf(a[j]) in Keys(a);
      assert Keys(b) == Keys(a);
    }
  }

  // ---------- the mode for a video ----------

  predicate Fits(m: ModeInfo, width: int, height: int) {
    m.hdisplay == width && m.vdisplay == height
  }

  /** The first TIMING_MAX positions below `n` whose mode has the resolution. */
  function Matches(modes: seq<ModeInfo>, width: int, height: int, n: nat): (s: seq<nat>)
    requires n <= |modes|
    ensures |s| <= TIMING_MAX
    ensures forall v :: 0 <= v < |s| ==> s[v] < n && Fits(modes[s[v]], width, height)
    ensures forall u, v :: 0 <= u < v < |s| ==> s[u] < s[v]
  {
    if n == 0 then [] else
      var s := Matches(modes, width, height, n - 1);
      if |s| < TIMING_MAX && Fits(modes[n - 1], width, height) then s + [n - 1] else s
  }

  /** Below the limit nothing that matches is missed. */
  lemma {:induction false} MatchesAll(modes: seq<ModeInfo>, width: int, height: int, n: nat)
    requires n <= |modes|
    ensures |Matches(modes, width, height, n)| < 128 ==>
        forall i :: 0 <= i < n && Fits(modes[i], width, height) ==> i in Matches(modes, width, height, n)
  {
    if n == 0 {
    } else {
      MatchesAll(modes, width, height, n - 1);
    }
  }

  /** A matched mode with exactly the video's refresh, 16:9 and progressive. */
  predicate Exact(m: ModeInfo, refresh: nat) {
    refresh != 0 && m.vrefresh == refresh && IsPreferredFlags(m.flags)
  }

  /** A refresh the video's divides, and that differs from it. */
  predicate Multiple(m: ModeInfo, refresh: nat) {
    refresh != 0 && m.vrefresh % refresh == 0 && m.vrefresh != refresh
  }

  /** `v` is the first of the matched modes that is exact. */
  ghost predicate FirstExact(modes: seq<ModeInfo>, s: seq<nat>, refresh: nat, v: nat)
    requires In(modes, s)
  {
    && v < |s| && Exact(modes[s[v]], refresh)
    && forall u :: 0 <= u < v ==> !Exact(modes[s[u]], refresh)
  }

  /** `v` is the first of the multiples of highest refresh. */
  ghost predicate BestMultiple(modes: seq<ModeInfo>, s: seq<nat>, refresh: nat, v: nat)
    requires In(modes, s)
  {
    && v < |s| && Multiple(modes[s[v]], refresh)
    && forall u :: 0 <= u < |s| && Multiple(modes[s[u]], refresh) ==>
         modes[s[u]].vrefresh <= modes[s[v]].vrefresh && (modes[s[u]].vrefresh == modes[s[v]].vrefresh ==> v <= u)
  }

  /** `v` has the highest refresh of all: the last 16:9 progressive one, or without any, the first. */
  ghost predicate Fastest(modes: seq<ModeInfo>, s: seq<nat>, v: nat)
    requires In(modes, s)
  {
    && v < |s|
    && (forall u :: 0 <= u < |s| ==> modes[s[u]].vrefresh <= modes[s[v]].vrefresh)
    && (forall u :: 0 <= u < |s| && u != v && modes[s[u]].vrefresh == modes[s[v]].vrefresh ==>
          if IsPreferredFlags(modes[s[v]].flags) then IsPreferredFlags(modes[s[u]].flags) ==> u < v
          else !IsPreferredFlags(modes[s[u]].flags) && v < u)
  }

  ghost predicate AnyExact(modes: seq<ModeInfo>, s: seq<nat>, refresh: nat)
    requires In(modes, s)
  {
    exists u :: 0 <= u < |s| && Exact(modes[s[u]], refresh)
  }

  ghost predicate AnyMultiple(modes: seq<ModeInfo>, s: seq<nat>, refresh: nat)
    requires In(modes, s)
  {
    exists u :: 0 <= u < |s| && Multiple(modes[s[u]], refresh)
  }

  /** Which of the matched modes is driven. */
  ghost predicate Chosen(modes: seq<ModeInfo>, s: seq<nat>, refresh: nat, v: nat)
    requires In(modes, s)
  {
    if AnyExact(modes, s, refresh) then FirstExact(modes, s, refresh, v)
    else if AnyMultiple(modes, s, refresh) then BestMultiple(modes, s, refresh, v)
    else Fastest(modes, s, v)
  }

  /** The choice is never open. */
  lemma ChosenIsUnique(modes: seq<ModeInfo>, s: seq<nat>, refresh: nat, v: nat, w: nat)
    requires In(modes, s)
    requires Chosen(modes, s, refresh, v) && Chosen(modes, s, refresh, w)
    ensures v == w
  {
    assert AnyExact(modes, s, refresh) ==> Exact(modes[s[v]], refresh) && Exact(modes[s[w]], refresh);
    assert !AnyExact(modes, s, refresh) ==> modes[s[v]].vrefresh == modes[s[w]].vrefresh;
  }

  /** What that comes to, said of the timing: the video's own refresh on a 16:9 progressive mode if there is one, else
      the highest other multiple of it, else the highest refresh of all, 16:9 progressive if one of those is. */
  ghost predicate Suits(modes: seq<ModeInfo>, s: seq<nat>, refresh: nat, t: Timing)
    requires In(modes, s)
  {
    if exists u :: 0 <= u < |s| && OwnRate(modes[s[u]], refresh) then
      t.refresh == refresh && t.interlace == 0 && t.ratio == 2
    else if exists u :: 0 <= u < |s| && OtherMultiple(modes[s[u]], refresh) then
      && refresh != 0 && t.refresh % refresh == 0 && t.refresh != refresh
      && forall u :: 0 <= u < |s| && OtherMultiple(modes[s[u]], refresh) ==> modes[s[u]].vrefresh <= t.refresh
    else
      && (forall u :: 0 <= u < |s| ==> modes[s[u]].vrefresh <= t.refresh)
      && ((exists u :: 0 <= u < |s| && modes[s[u]].vrefresh == t.refresh
             && modes[s[u]].flags.wide && !modes[s[u]].flags.interlaced) ==> t.interlace == 0 && t.ratio == 2)
  }

  predicate OwnRate(m: ModeInfo, refresh: nat) {
    refresh > 0 && m.vrefresh == refresh && m.flags.wide && !m.flags.interlaced
  }

  predicate OtherMultiple(m: ModeInfo, refresh: nat) {
    refresh > 0 && m.vrefresh != refresh && m.vrefresh % refresh == 0
  }

  lemma ChosenSuits(modes: seq<ModeInfo>, s: seq<nat>, refresh: nat, v: nat)
    requires In(modes, s) && Chosen(modes, s, refresh, v)
    ensures Suits(modes, s, refresh, TimingOf(modes[s[v]]))
  {
    assert forall u :: 0 <= u < |s| ==> (OwnRate(modes[s[u]], refresh) <==> Exact(modes[s[u]], refresh));
    assert forall u :: 0 <= u < |s| ==> (OtherMultiple(modes[s[u]], refresh) <==> Multiple(modes[s[u]], refresh));
  }

  /** The six fields by which modes are told apart. */
  predicate Alike(m: ModeInfo, m': ModeInfo) {
    && m.hdisplay == m'.hdisplay && m.vdisplay == m'.vdisplay && m.vrefresh == m'.vrefresh
    && m.flags.interlaced == m'.flags.interlaced && m.flags.wide == m'.flags.wide && m.flags.standard == m'.flags.standard
  }

  /** Every mode is listed by one alike, and no two alike are listed. */
  lemma ListTellsApart(modes: seq<ModeInfo>)
    ensures var s := Firsts(modes, |modes|);
      && (forall i :: 0 <= i < |modes| ==> exists v :: 0 <= v < |s| && Alike(modes[s[v]], modes[i]))
      && (forall u, v :: 0 <= u < v < |s| ==> s[u] < s[v] && !Alike(modes[s[u]], modes[s[v]]))
  {
    var s := Firsts(modes, |modes|);
    FirstsListEachKeyOnce(modes, |modes|);
    forall i | 0 <= i < |modes|
      ensures exists v :: 0 <= v < |s| && Alike(modes[s[v]], modes[i])
    {
      assert IsListed(modes, s, i);
      var v :| 0 <= v < |s| && s[v] <= i && KeyOf(modes[s[v]]) == KeyOf(modes[i]);
      assert Alike(modes[s[v]], modes[i]);
    }
  }

  // ---------- the preferred mode ----------

  /** How many modes come before the first that the monitor prefers. */
  function UntilPreferred(modes: seq<ModeInfo>): (n: nat)
    ensures n <= |modes|
    ensures n < |modes| ==> modes[n].preferred
    ensures forall i :: 0 <= i < n ==> !modes[i].preferred
  {
    if modes == [] || modes[0].preferred then 0 else 1 + UntilPreferred(modes[1..])
  }

  predicate At60(m: ModeInfo, width: int, height: int) {
    Fits(m, width, height) && m.vrefresh == PREFERRED_VREFRESH
  }

  /** `k` is the last 16:9 progressive mode of that resolution below `n`, without any the first, and -1
      when the resolution does not occur. */
  ghost predicate PickAt60(modes: seq<ModeInfo>, n: nat, width: int, height: int, k: int)
    requires n <= |modes|
  {
    if k == -1 then forall i :: 0 <= i < n ==> !At60(modes[i], width, height)
    else
      && 0 <= k < n && At60(modes[k], width, height)
      && forall i :: 0 <= i < n && i != k && At60(modes[i], width, height) ==>
           if i > k then !IsPreferredFlags(modes[i].flags) else IsPreferredFlags(modes[k].flags)
  }

  predicate Larger(m: ModeInfo, width: nat, height: nat) {
    m.hdisplay > width && m.vdisplay > height && m.vrefresh == PREFERRED_VREFRESH
  }

  /** The resolution that stands when each mode below `n` larger both ways has replaced the one before. */
  function Largest(modes: seq<ModeInfo>, n: nat): (nat, nat)
    requires n <= |modes|
  {
    if n == 0 then (0, 0) else
      var (w, h) := Largest(modes, n - 1);
      if Larger(modes[n - 1], w, h) then (modes[n - 1].hdisplay, modes[n - 1].vdisplay) else (w, h)
  }

  /** It is a maximal one: no mode at 60 Hz is larger both ways. */
  lemma {:induction false} LargestIsMaximal(modes: seq<ModeInfo>, n: nat, i: nat)
    requires i < n <= |modes|
    ensures var (w, h) := Largest(modes, n); !Larger(modes[i], w, h)
  {
    if i == n - 1 {
    } else {
      LargestIsMaximal(modes, n - 1, i);
    }
  }

  /** `k` is the pick at the record resolution; -1 when that was never set. */
  ghost predicate PickLargest(modes: seq<ModeInfo>, n: nat, k: int)
    requires n <= |modes|
  {
    var (w, h) := Largest(modes, n);
    if k == -1 then w == 0 && h == 0 && forall i :: 0 <= i < n && At60(modes[i], 0, 0) ==> !IsPreferredFlags(modes[i].flags)
    else PickAt60(modes, n, w, h, k)
  }

  predicate Is60(m: ModeInfo, width: int, height: int) {
    m.hdisplay == width && m.vdisplay == height && m.vrefresh == 60
  }

  /** What the preferred index is good for: before the monitor's own mode, which wins at 60 Hz, 1080p is sought at
      60 Hz, then 720p, each in 16:9 progressive if it comes so, and then what is largest at 60 Hz. */
  ghost predicate Preferred(modes: seq<ModeInfo>, n: nat, k: nat)
    requires n <= |modes|
  {
    if n < |modes| && modes[n].vrefresh == 60 then k == n
    else if exists i :: 0 <= i < n && Is60(modes[i], 1920, 1080) then k < n && BestOf(modes, n, 1920, 1080, k)
    else if exists i :: 0 <= i < n && Is60(modes[i], 1280, 720) then k < n && BestOf(modes, n, 1280, 720, k)
    else if exists i :: 0 <= i < n && modes[i].vrefresh == 60 && modes[i].hdisplay > 0 && modes[i].vdisplay > 0 then
      k < n && modes[k].vrefresh == 60 && forall i :: 0 <= i < n && modes[i].vrefresh == 60 ==>
        modes[i].hdisplay <= modes[k].hdisplay || modes[i].vdisplay <= modes[k].vdisplay
    else k == 0 || (k < n && modes[k].vrefresh == 60)
  }

  ghost predicate BestOf(modes: seq<ModeInfo>, n: nat, width: int, height: int, k: nat)
    requires k < n <= |modes|
  {
    && Is60(modes[k], width, height)
    && ((exists i :: 0 <= i < n && Is60(modes[i], width, height) && modes[i].flags.wide && !modes[i].flags.interlaced) ==>
          modes[k].flags.wide && !modes[k].flags.interlaced)
  }

  lemma PickIsBest(modes: seq<ModeInfo>, n: nat, width: int, height: int, k: int)
    requires n <= |modes| && PickAt60(modes, n, width, height, k)
    ensures (exists i :: 0 <= i < n && Is60(modes[i], width, height)) <==> k != -1
    ensures k != -1 ==> BestOf(modes, n, width, height, k)
  {
    assert forall i :: 0 <= i < n ==> (Is60(modes[i], width, height) <==> At60(modes[i], width, height));
  }

  lemma LargestPicked(modes: seq<ModeInfo>, n: nat, k: int)
    requires n <= |modes| && PickLargest(modes, n, k)
    ensures k != -1 ==> 0 <= k < n && modes[k].vrefresh == 60
    ensures (exists i :: 0 <= i < n && modes[i].vrefresh == 60 && modes[i].hdisplay > 0 && modes[i].vdisplay > 0) ==>
      k != -1 && forall i :: 0 <= i < n && modes[i].vrefresh == 60 ==>
        modes[i].hdisplay <= modes[k].hdisplay || modes[i].vdisplay <= modes[k].vdisplay
  {
    var (w, h) := Largest(modes, n);
    forall i | 0 <= i < n
      ensures !Larger(modes[i], w, h)
    {
      LargestIsMaximal(modes, n, i);
    }
  }

  // ---------- the driver's context ----------

  class DrmContext {
    var hdmiSupported: bool
    var connected: bool
    var preferredModeIndex: nat
    var modeValid: bool
    var modeSelected: Timing

    /** drm_hdmi_setTiming */
    static method SetTiming(modes: seq<ModeInfo>, index: nat) returns (info: Timing)
      ensures info == if index < |modes| then TimingOf(modes[index]) else NO_TIMING
    {
      if index >= |modes| {
        return NO_TIMING;
      }
      var mode := modes[index];
      var ratio := 0;
      if mode.flags.wide {
        ratio := 2;
      } else if mode.flags.standard {
        ratio := 1;
      }
      info := Timing(mode.vrefresh, mode.hdisplay, mode.vdisplay, if mode.flags.interlaced then FLAG_INTERLACE else 0, ratio);
    }

    /** drm_hdmi_getTiming: the loop that collects the matched modes */
    static method FindMatched(modes: seq<ModeInfo>, width: int, height: int, indexMatched: array<nat>) returns (numMatched: nat)
      requires indexMatched.Length == TIMING_MAX
      modifies indexMatched
      ensures numMatched <= TIMING_MAX && indexMatched[..numMatched] == Matches(modes, width, height, |modes|)
    {
      numMatched := 0;
      for i := 0 to |modes|
        invariant numMatched < TIMING_MAX
        invariant indexMatched[..numMatched] == Matches(modes, width, height, i)
      {
        if width == modes[i].hdisplay && height == modes[i].vdisplay {
          indexMatched[numMatched] := i;
          numMatched := numMatched + 1;
          assert indexMatched[..numMatched] == indexMatched[..numMatched - 1] + [i];
        }
        if numMatched >= TIMING_MAX {
          FullStays(modes, width, height, i + 1, |modes|);
          break;
        }
      }
    }

    static lemma {:induction false} FullStays(modes: seq<ModeInfo>, width: int, height: int, i: nat, n: nat)
      requires i <= n <= |modes| && |Matches(modes, width, height, i)| == TIMING_MAX
      ensures Matches(modes, width, height, n) == Matches(modes, width, height, i)
    {
      if i == n {
      } else {
        FullStays(modes, width, height, i, n - 1);
      }
    }

    /** drm_hdmi_getTiming: one round of the loop over the matched modes, for the highest refresh */
    static method NextFastest(modes: seq<ModeInfo>, s: seq<nat>, max: nat, v: nat) returns (next: nat)
      requires In(modes, s)
      requires v < |s| && if v == 0 then max == 0 else Fastest(modes, s[..v], max)
      ensures Fastest(modes, s[..v + 1], next)
    {
      var modeInfo, best := modes[s[v]], modes[s[max]];
      next := max;
      if modeInfo.vrefresh > best.vrefresh {
        next := v;
      } else if modeInfo.vrefresh == best.vrefresh {
        if IsPreferredFlags(modeInfo.flags) {
          next := v;
        }
      }
      assert forall u :: 0 <= u < v ==> s[..v + 1][u] == s[..v][u];
    }

    /** What best_vrefresh_index is when `v` matched modes have been looked at without an exact one. */
    static ghost predicate BestSoFar(modes: seq<ModeInfo>, s: seq<nat>, refresh: nat, v: nat, best: int)
      requires In(modes, s) && v <= |s|
    {
      && !AnyExact(modes, s[..v], refresh)
      && if best == -1 then !AnyMultiple(modes, s[..v], refresh)
         else 0 <= best && BestMultiple(modes, s[..v], refresh, best)
    }

    /** drm_hdmi_getTiming: one round of that loop, for the best multiple; `exact` ends the loop */
    static method NextBest(modes: seq<ModeInfo>, s: seq<nat>, refresh: nat, best: int, v: nat) returns (next: int, exact: bool)
      requires In(modes, s)
      requires v < |s| && BestSoFar(modes, s, refresh, v, best)
      ensures exact ==> next == v && FirstExact(modes, s, refresh, v)
      ensures !exact ==> BestSoFar(modes, s, refresh, v + 1, next)
    {
      next, exact := best, false;
      var modeInfo := modes[s[v]];
      assert forall u :: 0 <= u < v ==> s[..v + 1][u] == s[..v][u];
      if refresh == 0 {
        return;
      }
      if modeInfo.vrefresh % refresh == 0 {
        if modeInfo.vrefresh == refresh {
          if IsPreferredFlags(modeInfo.flags) {
            assert forall u :: 0 <= u < v ==> s[u] == s[..v][u];
            return v, true;
          }
        } else if best == -1 || modeInfo.vrefresh > modes[s[best]].vrefresh {
          assert s[..v + 1][v] == s[v];
          next := v;
        }
      }
    }

    /** drm_hdmi_getTiming: the loop that picks one of the matched modes */
    static method Pick(modes: seq<ModeInfo>, s: seq<nat>, refresh: nat) returns (index: nat)
      requires s != [] && In(modes, s)
      ensures exists v :: 0 <= v < |s| && Chosen(modes, s, refresh, v) && index == s[v]
    {
      var max: nat, best: int := 0, -1;
      for v := 0 to |s|
        invariant if v == 0 then max == 0 else Fastest(modes, s[..v], max)
        invariant BestSoFar(modes, s, refresh, v, best)
      {
        max := NextFastest(modes, s, max, v);
        var exact;
        best, exact := NextBest(modes, s, refresh, best, v);
        if exact {
          assert Chosen(modes, s, refresh, v);
          return s[v];
        }
      }
      assert s[..|s|] == s;
      var v: nat := if best != -1 then best else max;
      assert Chosen(modes, s, refresh, v);
      return s[v];
    }

    /** The target of extended video: 720p for what fits into it, else 1080p. */
    static function Target(info: Timing): (int, int) {
      if info.width <= 1280 && info.height <= 720 then (1280, 720) else (1920, 1080)
    }

    /** It is the timing of this mode. */
    static predicate Drives(m: ModeInfo, timing: Timing) {
      && timing.width == m.hdisplay && timing.height == m.vdisplay && timing.refresh == m.vrefresh
      && timing.interlace == (if m.flags.interlaced then 16 else 0)
      && timing.ratio == (if m.flags.wide then 2 else if m.flags.standard then 1 else 0)
    }

    /** It is the timing of a mode that is offered. */
    static ghost predicate OfSome(modes: seq<ModeInfo>, timing: Timing) {
      exists i :: 0 <= i < |modes| && Drives(modes[i], timing)
    }

    static ghost predicate Offers(modes: seq<ModeInfo>, width: int, height: int) {
      exists i :: 0 <= i < |modes| && modes[i].hdisplay == width && modes[i].vdisplay == height
    }

    static lemma {:induction false} OfferedMatches(modes: seq<ModeInfo>, width: int, height: int, n: nat, i: nat)
      requires i < n <= |modes| && modes[i].hdisplay == width && modes[i].vdisplay == height
      ensures Matches(modes, width, height, n) != []
    {
      if i == n - 1 {
      } else {
        OfferedMatches(modes, width, height, n - 1, i);
      }
    }

    /** What is driven for a video, if its resolution is offered. */
    static ghost predicate DrivesVideo(modes: seq<ModeInfo>, width: int, height: int, refresh: nat, timing: Timing) {
      Offers(modes, width, height) ==>
        && timing.width == width && timing.height == height
        && Suits(modes, Matches(modes, width, height, |modes|), refresh, timing)
    }

    static lemma ChosenDrives(modes: seq<ModeInfo>, width: int, height: int, refresh: nat, v: nat)
      requires var s := Matches(modes, width, height, |modes|); v < |s| && Chosen(modes, s, refresh, v)
      ensures var t := TimingOf(modes[Matches(modes, width, height, |modes|)[v]]);
        DrivesVideo(modes, width, height, refresh, t) && OfSome(modes, t)
    {
      var s := Matches(modes, width, height, |modes|);
      ChosenSuits(modes, s, refresh, v);
      assert Drives(modes[s[v]], TimingOf(modes[s[v]]));
    }

    static lemma NotOffered(modes: seq<ModeInfo>, width: int, height: int)
      requires Matches(modes, width, height, |modes|) == []
      ensures !Offers(modes, width, height)
    {
      if i :| 0 <= i < |modes| && modes[i].hdisplay == width && modes[i].vdisplay == height {
        OfferedMatches(modes, width, height, |modes|, i);
      }
    }

    /** drm_hdmi_getTiming; `modes` is what the connector offers, if there is one */
    method GetTiming(videoExt: bool, info: Timing, connected': bool, modes: seq<ModeInfo>) returns (ok: bool, timing: Timing)
      ensures ok <==> hdmiSupported && connected && (modeValid || connected')
      ensures !ok ==> timing == info
      ensures ok && modeValid ==> timing == modeSelected
      ensures ok && !modeValid ==>
        var (w, h) := Target(info); var s := Matches(modes, w, h, |modes|);
        if videoExt && s != []
        then exists v :: 0 <= v < |s| && Chosen(modes, s, info.refresh, v) && timing == TimingOf(modes[s[v]])
        else timing == if preferredModeIndex < |modes| then TimingOf(modes[preferredModeIndex]) else NO_TIMING
      ensures ok && !modeValid && preferredModeIndex < |modes| ==>
        OfSome(modes, timing) && (!videoExt ==> Drives(modes[preferredModeIndex], timing))
      ensures ok && !modeValid && videoExt && info.width <= 1280 && info.height <= 720 ==>
        DrivesVideo(modes, 1280, 720, info.refresh, timing)
      ensures ok && !modeValid && videoExt && !(info.width <= 1280 && info.height <= 720) ==>
        DrivesVideo(modes, 1920, 1080, info.refresh, timing)
    {
      ok, timing := false, info;
      if !hdmiSupported || !connected {
        return;
      }
      if modeValid {
        return true, modeSelected;
      }
      if !connected' {
        return;
      }
      ok := true;
      if !videoExt {
        timing := SetTiming(modes, preferredModeIndex);
        return;
      }
      var width, height := 1920, 1080;
      if info.width <= 1280 && info.height <= 720 {
        width, height := 1280, 720;
      }
      var indexMatched := new nat[TIMING_MAX];
      var numMatched := FindMatched(modes, width, height, indexMatched);
      if numMatched == 0 {
        NotOffered(modes, width, height);
        timing := SetTiming(modes, preferredModeIndex);
        return;
      }
      var index := Pick(modes, indexMatched[..numMatched], info.refresh);
      timing := SetTiming(modes, index);
      ghost var v :| 0 <= v < numMatched && Chosen(modes, indexMatched[..numMatched], info.refresh, v)
        && index == indexMatched[..numMatched][v];
      ChosenDrives(modes, width, height, info.refresh, v);
    }

    /** drm_hdmi_setModeInfo */
    method SetModeInfo(width: int, height: int, refresh: nat, interlace: int, ratio: int) returns (ok: bool)
      modifies this`modeSelected, this`modeValid
      ensures ok <==> hdmiSupported && connected
      ensures ok ==>
        && modeValid && modeSelected.width == width && modeSelected.height == height
        && modeSelected.refresh == refresh && modeSelected.interlace == interlace && modeSelected.ratio == ratio
      ensures !ok ==> modeValid == old(modeValid) && modeSelected == old(modeSelected)
    {
      if !hdmiSupported || !connected {
        return false;
      }
      modeSelected := Timing(refresh, width, height, interlace, ratio);
      modeValid := true;
      return true;
    }

    /** drm_select_preferredmode: how its loop updates the index for one resolution */
    static method NextAt60(modes: seq<ModeInfo>, i: nat, width: int, height: int, index: int) returns (next: int)
      requires i < |modes| && PickAt60(modes, i, width, height, index)
      ensures PickAt60(modes, i + 1, width, height, next)
    {
      var mode := modes[i];
      next := index;
      if mode.hdisplay == width && mode.vdisplay == height && mode.vrefresh == PREFERRED_VREFRESH {
        if index == -1 {
          next := i;
        } else if IsPreferredFlags(mode.flags) {
          next := i;
        }
      }
    }

    /** drm_select_preferredmode: and how it updates the record */
    static method NextLargest(modes: seq<ModeInfo>, i: nat, hdisplay: nat, vdisplay: nat, max: int)
      returns (width: nat, height: nat, next: int)
      requires i < |modes| && Largest(modes, i) == (hdisplay, vdisplay) && PickLargest(modes, i, max)
      ensures Largest(modes, i + 1) == (width, height) && PickLargest(modes, i + 1, next)
    {
      var mode := modes[i];
      width, height, next := hdisplay, vdisplay, max;
      forall j | 0 <= j < i
        ensures !Larger(modes[j], hdisplay, vdisplay)
      {
        LargestIsMaximal(modes, i, j);
      }
      if mode.hdisplay > hdisplay && mode.vdisplay > vdisplay && mode.vrefresh == PREFERRED_VREFRESH {
        width, height, next := mode.hdisplay, mode.vdisplay, i;
      } else if mode.hdisplay == hdisplay && mode.vdisplay == vdisplay && mode.vrefresh == PREFERRED_VREFRESH {
        if IsPreferredFlags(mode.flags) {
          next := i;
        }
      }
    }

    /** drm_select_preferredmode */
    method SelectPreferredMode(modes: seq<ModeInfo>) returns (ghost index720: int, ghost index1080: int, ghost indexMax: int)
      modifies this`preferredModeIndex
      ensures var n := UntilPreferred(modes);
        && PickAt60(modes, n, 1280, 720, index720)
        && PickAt60(modes, n, 1920, 1080, index1080)
        && PickLargest(modes, n, indexMax)
        && preferredModeIndex ==
             if n < |modes| && modes[n].vrefresh == PREFERRED_VREFRESH then n
             else if index1080 != -1 then index1080
             else if index720 != -1 then index720
             else if indexMax != -1 then indexMax else 0
      ensures modes != [] ==> preferredModeIndex < |modes|
      ensures Preferred(modes, UntilPreferred(modes), preferredModeIndex)
    {
      var indexPreferred, at720, at1080, max := -1, -1, -1, -1;
      var hdisplay, vdisplay := 0, 0;
      var i := 0;
      while i < |modes|
        invariant i <= |modes| && forall j :: 0 <= j < i ==> !modes[j].preferred
        invariant PickAt60(modes, i, 1280, 720, at720) && PickAt60(modes, i, 1920, 1080, at1080)
        invariant Largest(modes, i) == (hdisplay, vdisplay) && PickLargest(modes, i, max)
      {
        var mode := modes[i];
        if mode.preferred {
          indexPreferred := i;
          break;
        }
        at720 := NextAt60(modes, i, 1280, 720, at720);
        at1080 := NextAt60(modes, i, 1920, 1080, at1080);
        hdisplay, vdisplay, max := NextLargest(modes, i, hdisplay, vdisplay, max);
        i := i + 1;
      }
      UntilPreferredIs(modes, i);
      index720, index1080, indexMax := at720, at1080, max;
      PickIsBest(modes, i, 1280, 720, at720);
      PickIsBest(modes, i, 1920, 1080, at1080);
      LargestPicked(modes, i, max);
      preferredModeIndex := 0;
      if indexPreferred != -1 && modes[indexPreferred].vrefresh == PREFERRED_VREFRESH {
        preferredModeIndex := indexPreferred;
      } else if at1080 != -1 {
        preferredModeIndex := at1080;
      } else if at720 != -1 {
        preferredModeIndex := at720;
      } else if max != -1 {
        preferredModeIndex := max;
      }
    }

    /** drm_hdmi_getConnectionStatus, once it has found a sink; `newSink` when it is not the one before */
    method Connect(newSink: bool, modes: seq<ModeInfo>)
      modifies this`connected, this`modeValid, this`preferredModeIndex
      ensures connected && modeValid == (old(modeValid) && !newSink)
      ensures modes != [] ==> preferredModeIndex < |modes|
      ensures Preferred(modes, UntilPreferred(modes), preferredModeIndex)
    {
      connected := true;
      if newSink {
        modeValid := false;
      }
      var _, _, _ := SelectPreferredMode(modes);
    }

    /** What setHdmiMode_l asks for when it finds a sink and is to show something: the connection, then the
        timing. It is the user's, if chosen on this sink, and else always that of a mode the sink offers. */
    method ConnectAndTime(newSink: bool, modes: seq<ModeInfo>, videoExt: bool, info: Timing)
      returns (ok: bool, timing: Timing)
      modifies this`connected, this`modeValid, this`preferredModeIndex
      ensures ok <==> hdmiSupported
      ensures ok && old(modeValid) && !newSink ==> timing == modeSelected
      ensures ok && !(old(modeValid) && !newSink) && modes != [] ==>
        && OfSome(modes, timing) && Preferred(modes, UntilPreferred(modes), preferredModeIndex)
        && (!videoExt ==> Drives(modes[preferredModeIndex], timing))
    {
      Connect(newSink, modes);
      ok, timing := GetTiming(videoExt, info, true, modes);
    }

    static lemma UntilPreferredIs(modes: seq<ModeInfo>, n: nat)
      requires n <= |modes| && (n < |modes| ==> modes[n].preferred)
      requires forall i :: 0 <= i < n ==> !modes[i].preferred
      ensures UntilPreferred(modes) == n
    {
    }

    // ---------- drm_hdmi_getModeInfo ----------

    /** The list of modes as the caller's arrays hold it. */
    static ghost predicate Listed(modes: seq<ModeInfo>, s: seq<nat>, lists: ModeLists)
      requires In(modes, s) && lists.Separate() && |s| <= TIMING_MAX
      reads lists.Arrays()
    {
      forall v :: 0 <= v < |s| ==>
        var m := modes[s[v]];
        && lists.width[v] == m.hdisplay && lists.height[v] == m.vdisplay && lists.refresh[v] == m.vrefresh
        && lists.interlace[v] == (if m.flags.interlaced then 1 else 0)
        && lists.ratio[v] == (if m.flags.wide then 2 else if m.flags.standard then 1 else 0)
    }

    /** drm_hdmi_getModeInfo: the loop that looks back for the same mode */
    static method Duplicated(modes: seq<ModeInfo>, i: nat) returns (duplicated: bool)
      requires i < |modes|
      ensures duplicated <==> !IsFirst(modes, i)
    {
      var j := i - 1;
      while j >= 0
        invariant -1 <= j < i && forall k :: j < k < i ==> KeyOf(modes[k]) != KeyOf(modes[i])
      {
        if modes[i].hdisplay == modes[j].hdisplay && modes[i].vdisplay == modes[j].vdisplay
           && modes[i].vrefresh == modes[j].vrefresh
           && modes[i].flags.(rest := 0) == modes[j].flags.(rest := 0) {
          assert KeyOf(modes[j]) == KeyOf(modes[i]);
          return true;
        }
        j := j - 1;
      }
      return false;
    }

    /** drm_hdmi_getModeInfo: one mode is recorded */
    static method Record(m: ModeInfo, lists: ModeLists, v: nat)
      requires lists.Separate() && v < TIMING_MAX
      modifies lists.Arrays()
      ensures lists.width[..] == old(lists.width[..])[v := m.hdisplay]
      ensures lists.height[..] == old(lists.height[..])[v := m.vdisplay]
      ensures lists.refresh[..] == old(lists.refresh[..])[v := m.vrefresh]
      ensures lists.interlace[..] == old(lists.interlace[..])[v := if m.flags.interlaced then 1 else 0]
      ensures lists.ratio[..] == old(lists.ratio[..])[v := Ratio(m.flags)]
    {
      lists.width[v] := m.hdisplay;
      lists.height[v] := m.vdisplay;
      lists.refresh[v] := m.vrefresh;
      if m.flags.interlaced {
        lists.interlace[v] := 1;
      } else {
        lists.interlace[v] := 0;
      }
      if m.flags.wide {
        lists.ratio[v] := 2;
      } else if m.flags.standard {
        lists.ratio[v] := 1;
      } else {
        lists.ratio[v] := 0;
      }
    }

    /** drm_hdmi_getModeInfo: a mode not met before is recorded behind the others */
    static method RecordFirst(modes: seq<ModeInfo>, i: nat, lists: ModeLists, v: nat)
      requires i < |modes| <= TIMING_MAX && lists.Separate() && IsFirst(modes, i)
      requires v == |Firsts(modes, i)| && Listed(modes, Firsts(modes, i), lists)
      modifies lists.Arrays()
      ensures Listed(modes, Firsts(modes, i + 1), lists)
    {
      ghost var s := Firsts(modes, i);
      Record(modes[i], lists, v);
      assert Firsts(modes, i + 1) == s + [i];
    }

    /** drm_hdmi_getModeInfo, with the caller's arrays */
    method GetModeInfo(connected': bool, modes: seq<ModeInfo>, lists: ModeLists) returns (count: nat)
      requires lists.Separate()
      modifies lists.Arrays()
      ensures !(hdmiSupported && connected && connected' && |modes| <= 128) ==> count == 0
      ensures hdmiSupported && connected && connected' && |modes| <= 128 ==>
        count == |Firsts(modes, |modes|)| && Listed(modes, Firsts(modes, |modes|), lists)
    {
      if !hdmiSupported || !connected || !connected' || |modes| > TIMING_MAX {
        return 0;
      }
      count := 0;
      for i := 0 to |modes|
        invariant count == |Firsts(modes, i)| && Listed(modes, Firsts(modes, i), lists)
      {
        var duplicated := Duplicated(modes, i);
        if !duplicated {
          RecordFirst(modes, i, lists, count);
          count := count + 1;
        }
      }
    }

    /** drm_hdmi_getModeInfo, without arrays: only the number is wanted */
    method CountModes(connected': bool, modes: seq<ModeInfo>) returns (count: nat)
      ensures count == if hdmiSupported && connected && connected' && |modes| <= 128 then |Firsts(modes, |modes|)| else 0
    {
      if !hdmiSupported || !connected || !connected' || |modes| > TIMING_MAX {
        return 0;
      }
      count := 0;
      for i := 0 to |modes|
        invariant count == |Firsts(modes, i)|
      {
        var duplicated := Duplicated(modes, i);
        if !duplicated {
          count := count + 1;
        }
      }
    }
  }

  /** The arrays a caller of drm_hdmi_getModeInfo passes. */
  datatype ModeLists = ModeLists(
    width: array<int>, height: array<int>, refresh: array<int>, interlace: array<int>, ratio: array<int>) {
    ghost function Arrays(): set<array<int>> {
      {width, height, refresh, interlace, ratio}
    }

    ghost predicate Separate() {
      && |Arrays()| == 5
      && width != height && width != refresh && width != interlace && width != ratio
      && height != refresh && height != interlace && height != ratio
      && refresh != interlace && refresh != ratio && interlace != ratio
      && width.Length >= TIMING_MAX && height.Length >= TIMING_MAX && refresh.Length >= TIMING_MAX
      && interlace.Length >= TIMING_MAX && ratio.Length >= TIMING_MAX
    }
  }
}
