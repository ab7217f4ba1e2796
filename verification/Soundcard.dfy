/** The `--soundcard` argument inside a managed Snapclient unit, and its replacement. */
module Soundcard {
  import opened Basics

  /** The option name; one whitespace character separates it from its value. */
  const FLAG := "--soundcard"

  /** What `\s` and `str.isspace` accept: Unicode white space and four separator controls. */
  predicate IsSpace(c: char) { IsWhitespace(c) || 28 <= c as int <= 31 }

  predicate CardChar(c: char) {
    'A' <= c <= 'Z' || 'a' <= c <= 'z' || '0' <= c <= '9' || c == '_' || c == '-'
  }

  /** `plughw:CARD=<card>,DEV=<digits>`, the only routes that may be written. */
  predicate IsRoute(s: string) {
    && |s| >= 12 && s[..12] == "plughw:CARD="
    && exists k | 12 < k < |s| - 5 :: IsRouteAt(s, k)
  }

  predicate IsRouteAt(s: string, k: int)
    requires 12 < k < |s| - 5
  {
    && s[k..k + 5] == ",DEV="
    && (forall i | 12 <= i < k :: CardChar(s[i]))
    && (forall i | k + 5 <= i < |s| :: '0' <= s[i] <= '9')
  }

  /** A soundcard value starts at `i`. */
  predicate StartsAt(u: string, i: nat) {
    12 <= i < |u| && u[i - 12..i - 1] == FLAG && IsSpace(u[i - 1]) && !IsSpace(u[i])
  }

  function NextStart(u: string, from: nat): (r: Option<nat>)
    ensures r.Some? ==> from <= r.value && StartsAt(u, r.value)
    ensures forall i :: from <= i < (if r.Some? then r.value else |u|) ==> !StartsAt(u, i)
    decreases |u| - from
  {
    if from >= |u| then None
    else if StartsAt(u, from) then Some(from)
    else NextStart(u, from + 1)
  }

  function TokenEnd(u: string, i: nat): (e: nat)
    requires i <= |u|
    ensures i <= e <= |u|
    ensures e < |u| ==> IsSpace(u[e])
    ensures forall j :: i <= j < e ==> !IsSpace(u[j])
    decreases |u| - i
  {
    if i == |u| || IsSpace(u[i]) then i else TokenEnd(u, i + 1)
  }

  /** The value of the single soundcard argument; none when it is missing or repeated. */
  function Current(u: string): Option<string> {
    match NextStart(u, 0)
    case None => None
    case Some(i) => if NextStart(u, i + 1).Some? then None else Some(u[i..TokenEnd(u, i)])
  }

  function SetSoundcard(u: string, current: Option<string>, chosen: string): Option<string> {
    if !IsRoute(chosen) || Current(u).None? || Current(u) != current then None
    else
      var i := NextStart(u, 0).value;
      Some(u[..i] + chosen + u[TokenEnd(u, i)..])
  }

  // ---- What the text says -----------------------------------------------------------

  ghost predicate CardName(card: string) {
    card != "" && forall c :: c in card ==> 'A' <= c <= 'Z' || 'a' <= c <= 'z' || '0' <= c <= '9' || c in {'_', '-'}
  }

  ghost predicate Digits(dev: string) { dev != "" && forall c :: c in dev ==> '0' <= c <= '9' }

  ghost predicate RouteOf(s: string, card: string, dev: string) {
    CardName(card) && Digits(dev) && s == "plughw:CARD=" + card + ",DEV=" + dev
  }

  /** A route is the one form of text the code's pattern matches as a whole. */
  lemma RouteMeaning(s: string)
    ensures IsRoute(s) <==> exists card, dev :: RouteOf(s, card, dev)
  {
    if IsRoute(s) {
      var k :| 12 < k < |s| - 5 && IsRouteAt(s, k);
      var card, dev := s[12..k], s[k + 5..];
      assert s == s[..12] + card + s[k..k + 5] + dev;
      forall c | c in card ensures CardChar(c) {
        var i :| 0 <= i < |card| && card[i] == c;
        assert s[12 + i] == c;
      }
      forall c | c in dev ensures '0' <= c <= '9' {
        var i :| 0 <= i < |dev| && dev[i] == c;
        assert s[k + 5 + i] == c;
      }
      assert RouteOf(s, card, dev);
    }
    if card, dev :| RouteOf(s, card, dev) {
      var k := 12 + |card|;
      assert s[..12] == "plughw:CARD=" && s[12..k] == card && s[k..k + 5] == ",DEV=" && s[k + 5..] == dev;
      forall i | 12 <= i < k ensures CardChar(s[i]) { assert s[12..k][i - 12] in card; }
      forall i | k + 5 <= i < |s| ensures '0' <= s[i] <= '9' { assert s[k + 5..][i - k - 5] in dev; }
      assert IsRouteAt(s, k);
    }
  }

  /** The one place of the text where the option has a value, and that value up to the next space. */
  ghost predicate OnlyValue(u: string, i: nat, value: string) {
    && StartsAt(u, i) && (forall k :: StartsAt(u, k) ==> k == i)
    && i + |value| <= |u| && u[i..i + |value|] == value && (forall c :: c in value ==> !IsSpace(c))
    && (i + |value| < |u| ==> IsSpace(u[i + |value|]))
  }

  lemma CurrentMeaning(u: string, value: string)
    ensures Current(u) == Some(value) <==> exists i: nat :: OnlyValue(u, i, value)
    ensures forall i: nat :: OnlyValue(u, i, value) ==> NextStart(u, 0) == Some(i) && TokenEnd(u, i) == i + |value|
  {
    if Current(u) == Some(value) {
      CurrentIsOnly(u);
      assert OnlyValue(u, NextStart(u, 0).value, value);
    }
    forall i: nat | OnlyValue(u, i, value)
      ensures NextStart(u, 0) == Some(i) && TokenEnd(u, i) == i + |value| && Current(u) == Some(value)
    {
      TokenEndIs(u, i, i + |value|);
      OnlyIsCurrent(u, i);
    }
  }

  ghost predicate OptionAt(u: string, q: int) { 0 <= q <= |u| - 11 && u[q..q + 11] == "--soundcard" }

  /** The option and its value, written into a text that has the option nowhere else, are read back. */
  lemma ReadsWritten(before: string, value: string, after: string)
    requires value != "" && (forall c :: c in value ==> !IsSpace(c)) && (after != "" ==> IsSpace(after[0]))
    requires forall q :: OptionAt(before + "--soundcard " + value + after, q) ==> q == |before|
    ensures Current(before + "--soundcard " + value + after) == Some(value)
  {
    var flag := "--soundcard ";
    var u, i := before + flag + value + after, |before| + 12;
    assert u[i - 12..i - 1] == flag[..11] == FLAG && u[i - 1] == flag[11] == ' ' && u[i] == value[0];
    assert u[i..i + |value|] == value;
    forall k: nat | StartsAt(u, k) ensures k == i { assert OptionAt(u, k - 12); }
    assert OnlyValue(u, i, value);
    CurrentMeaning(u, value);
  }

  // ---- The replacement --------------------------------------------------------------

  lemma RouteShape(s: string)
    requires IsRoute(s)
    ensures |s| > 0 && '0' <= s[|s| - 1] <= '9'
    ensures forall i :: 0 <= i < |s| ==> !IsSpace(s[i])
  {
    var k :| 12 < k < |s| - 5 && IsRouteAt(s, k);
    forall i | 0 <= i < |s| ensures !IsSpace(s[i]) {
      if i < 12 {
        assert s[i] == s[..12][i];
      } else if k <= i < k + 5 {
        assert s[i] == s[k..k + 5][i - k];
      }
    }
  }

  lemma FlagWindow(v: string, p: nat)
    requires StartsAt(v, p)
    ensures forall j :: p - 12 <= j < p - 1 ==> !IsSpace(v[j])
    ensures v[p - 2] == 'd'
  {
    var window := v[p - 12..p - 1];
    forall j | p - 12 <= j < p - 1 ensures !IsSpace(v[j]) { assert v[j] == window[j - (p - 12)]; }
    assert v[p - 2] == window[10];
  }

  lemma RouteWindow(v: string, i: nat, e: nat)
    requires i < e <= |v| && IsRoute(v[i..e])
    ensures forall j :: i <= j < e ==> !IsSpace(v[j])
    ensures '0' <= v[e - 1] <= '9'
  {
    var route := v[i..e];
    RouteShape(route);
    forall j | i <= j < e ensures !IsSpace(v[j]) { assert v[j] == route[j - i]; }
    assert v[e - 1] == route[|route| - 1];
  }

  /** No flag can straddle the end of a route: it would have to hold a space or end in a digit. */
  lemma StartsAreClearOfRoute(v: string, i: nat, e: nat, p: nat)
    requires i < e <= |v| && IsRoute(v[i..e]) && (e < |v| ==> IsSpace(v[e]))
    requires StartsAt(v, p) && p > i
    ensures p - 12 >= e
  {
    RouteWindow(v, i, e);
    FlagWindow(v, p);
  }

  /** Two texts that agree on the twelve places before and the one at the start agree on the start. */
  lemma SameWindow(u: string, q: nat, v: string, p: nat)
    requires StartsAt(v, p) && 12 <= q < |u| && v[p - 12..p + 1] == u[q - 12..q + 1]
    ensures StartsAt(u, q)
  {
    assert u[q - 12..q - 1] == u[q - 12..q + 1][..11];
    assert v[p - 12..p - 1] == v[p - 12..p + 1][..11];
    assert u[q - 1] == u[q - 12..q + 1][11] && u[q] == u[q - 12..q + 1][12];
    assert v[p - 1] == v[p - 12..p + 1][11] && v[p] == v[p - 12..p + 1][12];
  }

  lemma StartsElsewhere(u: string, i: nat, e: nat, chosen: string, p: nat)
    requires i <= e <= |u| && (e < |u| ==> IsSpace(u[e])) && IsRoute(chosen)
    requires var v := u[..i] + chosen + u[e..]; StartsAt(v, p) && p != i
    ensures exists q: nat :: StartsAt(u, q) && (q < i || q > e)
  {
    var v := u[..i] + chosen + u[e..];
    var e' := i + |chosen|;
    if p < i {
      assert v[p - 12..p + 1] == u[p - 12..p + 1];
      SameWindow(u, p, v, p);
    } else {
      RouteShape(chosen);
      assert v[i..e'] == chosen;
      StartsAreClearOfRoute(v, i, e', p);
      var q := p - e' + e;
      assert v[p - 12..p + 1] == u[q - 12..q + 1];
      SameWindow(u, q, v, p);
    }
  }

  /** After the replacement the new value is the only soundcard value of the unit. */
  lemma OnlyStart(u: string, i: nat, chosen: string)
    requires StartsAt(u, i) && forall j :: StartsAt(u, j) ==> j == i
    requires IsRoute(chosen)
    ensures var v := u[..i] + chosen + u[TokenEnd(u, i)..];
            StartsAt(v, i) && TokenEnd(v, i) == i + |chosen| && forall p :: StartsAt(v, p) ==> p == i
  {
    var e := TokenEnd(u, i);
    var v := u[..i] + chosen + u[e..];
    RouteShape(chosen);
    assert v[i - 12..i - 1] == u[i - 12..i - 1];
    assert v[i..i + |chosen|] == chosen;
    TokenEndIs(v, i, i + |chosen|);
    forall p | StartsAt(v, p) ensures p == i {
      if p != i { StartsElsewhere(u, i, e, chosen, p); }
    }
  }

  lemma TokenEndIs(u: string, i: nat, e: nat)
    requires i <= e <= |u| && (e < |u| ==> IsSpace(u[e]))
    requires forall j :: 0 <= j < e - i ==> !IsSpace(u[i..e][j])
    ensures TokenEnd(u, i) == e
  {
    forall j | i <= j < e ensures !IsSpace(u[j]) { assert u[j] == u[i..e][j - i]; }
  }

  lemma CurrentIsOnly(u: string)
    requires Current(u).Some?
    ensures var i := NextStart(u, 0).value;
            StartsAt(u, i) && forall j :: StartsAt(u, j) ==> j == i
  {
    var i := NextStart(u, 0).value;
    assert NextStart(u, i + 1).None?;
  }

  lemma OnlyIsCurrent(u: string, i: nat)
    requires StartsAt(u, i) && forall j :: StartsAt(u, j) ==> j == i
    ensures NextStart(u, 0) == Some(i) && Current(u) == Some(u[i..TokenEnd(u, i)])
  {
    assert NextStart(u, 0).Some?;
    assert NextStart(u, i + 1).None?;
  }

  lemma Spliced(u: string, i: nat, e: nat, chosen: string)
    requires i <= e <= |u|
    ensures var v := u[..i] + chosen + u[e..];
            v[..i] + u[i..e] + v[i + |chosen|..] == u
  {
    var v := u[..i] + chosen + u[e..];
    assert v[..i] == u[..i] && v[i + |chosen|..] == u[e..];
  }

  /** The unit names the chosen route afterwards, and putting the old route back undoes the edit. */
  lemma SetSoundcardRoundTrip(u: string, current: Option<string>, chosen: string)
    requires SetSoundcard(u, current, chosen).Some?
    ensures var v := SetSoundcard(u, current, chosen).value;
            && Current(v) == Some(chosen)
            && (IsRoute(current.value) ==> SetSoundcard(v, Some(chosen), current.value) == Some(u))
  {
    CurrentIsOnly(u);
    var i := NextStart(u, 0).value;
    OnlyStart(u, i, chosen);
    var e := TokenEnd(u, i);
    var v := u[..i] + chosen + u[e..];
    OnlyIsCurrent(v, i);
    assert v[i..i + |chosen|] == chosen;
    Spliced(u, i, e, chosen);
  }
}
