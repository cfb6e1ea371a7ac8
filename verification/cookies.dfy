/**
 * The cookie helpers copied into the language provider and the weather
 * widget: `getCookie` scans the `;`-separated cookie text for the first
 * segment that, after dropping leading spaces, starts with `name=`;
 * `setCookie` builds the assignment `name=value[; expires=…]; path=/`.
 *
 * `document.cookie` is an input: `None` stands for "no document" (a server
 * render), where `getCookie` answers null and `setCookie` writes nothing.
 */
module Cookies {
  import opened Wrappers
  import opened Strings

  // ----- reading -----

  /** A segment that, after its leading spaces, begins with `name=`. */
  predicate SegmentMatches(seg: string, name: string) {
    IsPrefix(name + "=", TrimLeadingSpaces(seg))
  }

  /** The rest of a matching segment after `name=`; later `=` characters stay. */
  function SegmentValue(seg: string, name: string): string
    requires SegmentMatches(seg, name)
  {
    TrimLeadingSpaces(seg)[|name| + 1..]
  }

  /** Segment `i` matches and no earlier segment does. */
  predicate IsFirstMatch(segs: seq<string>, name: string, i: int) {
    && 0 <= i < |segs|
    && SegmentMatches(segs[i], name)
    && forall j :: 0 <= j < i ==> !SegmentMatches(segs[j], name)
  }

  /** The value of the first matching segment, or `None` when no segment matches. */
  function FirstMatch(segs: seq<string>, name: string): (r: Option<string>)
    ensures r.None? <==> forall i :: 0 <= i < |segs| ==> !SegmentMatches(segs[i], name)
    ensures r.Some? ==> exists i :: IsFirstMatch(segs, name, i) && r.value == SegmentValue(segs[i], name)
    decreases |segs|
  {
    if |segs| == 0 then None
    else if SegmentMatches(segs[0], name) then
      assert IsFirstMatch(segs, name, 0);
      Some(SegmentValue(segs[0], name))
    else
      var r := FirstMatch(segs[1..], name);
      if r.Some? then
        var i :| IsFirstMatch(segs[1..], name, i) && r.value == SegmentValue(segs[1..][i], name);
        FirstMatchShift(segs, name, i);
        r
      else
        assert forall i :: 1 <= i < |segs| ==> segs[i] == segs[1..][i - 1];
        r
  }

  /** A first match after a segment that does not match moves one place along. */
  lemma FirstMatchShift(segs: seq<string>, name: string, i: int)
    requires |segs| > 0 && !SegmentMatches(segs[0], name)
    requires IsFirstMatch(segs[1..], name, i)
    ensures IsFirstMatch(segs, name, i + 1) && segs[i + 1] == segs[1..][i]
  {
    forall j | 0 <= j < i + 1
      ensures !SegmentMatches(segs[j], name)
    {
      if j > 0 {
        assert segs[j] == segs[1..][j - 1];
      }
    }
  }

  /** Only one index can be the first match. */
  lemma FirstMatchUnique(segs: seq<string>, name: string, i: int, j: int)
    requires IsFirstMatch(segs, name, i) && IsFirstMatch(segs, name, j)
    ensures i == j
  {
  }

  /** The first match determines the result. */
  lemma FirstMatchAt(segs: seq<string>, name: string, i: int)
    requires IsFirstMatch(segs, name, i)
    ensures FirstMatch(segs, name) == Some(SegmentValue(segs[i], name))
  {
    var f := FirstMatch(segs, name);
    var k :| IsFirstMatch(segs, name, k) && f.value == SegmentValue(segs[k], name);
    FirstMatchUnique(segs, name, i, k);
  }

  /**
   * `getCookie(name)` over the cookie text `document` (functional form):
   * null without a document; otherwise the value of the first `;`-segment
   * that begins with `name=`, which never holds a `;`.
   */
  function GetCookie(document: Option<string>, name: string): (r: Option<string>)
    ensures document.None? ==> r.None?
    ensures document.Some? && r.None? ==>
              forall seg :: seg in Split(document.value, ';') ==> !SegmentMatches(seg, name)
    ensures r.Some? ==> && ';' !in r.value
                        && exists i :: IsFirstMatch(Split(document.value, ';'), name, i)
                                       && r.value == SegmentValue(Split(document.value, ';')[i], name)
  {
    match document
    case None => None
    case Some(text) =>
      var segs := Split(text, ';');
      var r := FirstMatch(segs, name);
      if r.Some? then
        var i :| IsFirstMatch(segs, name, i) && r.value == SegmentValue(segs[i], name);
        SegmentValueInside(segs[i], name);
        r
      else r
  }

  /** The value read from a segment is a part of it, so a segment without `;` gives a value without one. */
  lemma SegmentValueInside(seg: string, name: string)
    requires SegmentMatches(seg, name)
    ensures ';' !in seg ==> ';' !in SegmentValue(seg, name)
  {
    var t := TrimLeadingSpaces(seg);
    assert t == seg[|seg| - |t|..];
    forall k | 0 <= k < |SegmentValue(seg, name)|
      ensures SegmentValue(seg, name)[k] == seg[|seg| - |t| + |name| + 1 + k]
    {
    }
  }

  /** The inner `while (c.charAt(0) === ' ') c = c.substring(1)` loop. */
  method StripSpaces(s: string) returns (c: string)
    ensures c == TrimLeadingSpaces(s)
  {
    c := s;
    while |c| > 0 && c[0] == ' '
      invariant TrimLeadingSpaces(c) == TrimLeadingSpaces(s)
      decreases |c|
    {
      c := c[1..];
    }
  }

  /**
   * `getCookie(name)` as the source's loops compute it: for each segment,
   * strip spaces one at a time, then test the prefix.
   */
  method ScanCookie(document: Option<string>, name: string) returns (r: Option<string>)
    ensures r == GetCookie(document, name)
  {
    if document.None? {
      return None;
    }
    var nameEQ := name + "=";
    assert |nameEQ| == |name| + 1;
    var ca := Split(document.value, ';');
    var i := 0;
    while i < |ca|
      invariant 0 <= i <= |ca|
      invariant forall j :: 0 <= j < i ==> !SegmentMatches(ca[j], name)
    {
      var c := StripSpaces(ca[i]);
      if IsPrefix(nameEQ, c) {
        assert SegmentMatches(ca[i], name) && c[|nameEQ|..] == SegmentValue(ca[i], name);
        FirstMatchAt(ca, name, i);
        return Some(c[|nameEQ|..]);
      }
      i := i + 1;
    }
    return None;
  }

  // ----- the cookie jar the browser reads back -----

  /** One stored cookie. */
  datatype Pair = Pair(key: string, value: string)

  /** Keys without `;`, `=` or a leading space, values without `;`: what a browser stores. */
  predicate WellFormedPair(p: Pair) {
    ';' !in p.key && '=' !in p.key && (|p.key| > 0 ==> p.key[0] != ' ') && ';' !in p.value
  }

  /** The segments of the text `document.cookie` reads back: `k=v`, then ` k=v` after each `;`. */
  function JarSegments(jar: seq<Pair>): (segs: seq<string>)
    ensures |segs| == |jar|
  {
    seq(|jar|, i requires 0 <= i < |jar| => (if i == 0 then "" else " ") + jar[i].key + "=" + jar[i].value)
  }

  /** The text `document.cookie` reads back: the pairs joined by `"; "`. */
  function JarText(jar: seq<Pair>): string {
    Join(JarSegments(jar), ';')
  }

  /** The browser's own lookup: the value of the first pair with this key. */
  function Lookup(jar: seq<Pair>, name: string): (r: Option<string>)
    ensures r.None? <==> forall i :: 0 <= i < |jar| ==> jar[i].key != name
    ensures r.Some? ==> exists i :: 0 <= i < |jar| && jar[i].key == name && r.value == jar[i].value
                                    && forall j :: 0 <= j < i ==> jar[j].key != name
    decreases |jar|
  {
    if |jar| == 0 then None
    else if jar[0].key == name then Some(jar[0].value)
    else
      var r := Lookup(jar[1..], name);
      assert forall i :: 1 <= i < |jar| ==> jar[i] == jar[1..][i - 1];
      if r.Some? then
        var i :| 0 <= i < |jar[1..]| && jar[1..][i].key == name && r.value == jar[1..][i].value
                 && forall j :: 0 <= j < i ==> jar[1..][j].key != name;
        assert jar[i + 1].key == name;
        r
      else r
  }

  /** `key=value` starts with `name=` exactly when the key is the name. */
  lemma PrefixOfPair(name: string, key: string, value: string)
    requires '=' !in name && '=' !in key
    ensures IsPrefix(name + "=", key + "=" + value) <==> name == key
  {
    var s := key + "=" + value;
    var t := name + "=";
    if name == key {
      assert s[..|t|] == t;
    }
    if IsPrefix(t, s) {
      assert t[..|name|] == name && s[..|key|] == key;
      assert s[..|name|] == t[..|name|];
      IndexOfCharAt(s, '=', |name|);
      IndexOfCharAt(s, '=', |key|);
    }
  }

  /** A jar segment matches `name` exactly when its pair has that key. */
  lemma JarSegmentMatches(jar: seq<Pair>, name: string, i: int)
    requires 0 <= i < |jar| && WellFormedPair(jar[i]) && '=' !in name
    ensures SegmentMatches(JarSegments(jar)[i], name) <==> jar[i].key == name
    ensures jar[i].key == name ==> SegmentValue(JarSegments(jar)[i], name) == jar[i].value
  {
    var p := jar[i];
    var body := p.key + "=" + p.value;
    var seg := JarSegments(jar)[i];
    assert body[0] != ' ';
    if i == 0 {
      assert seg == body;
    } else {
      assert seg == " " + body;
      assert TrimLeadingSpaces(seg) == TrimLeadingSpaces(body);
    }
    assert TrimLeadingSpaces(seg) == body;
    PrefixOfPair(name, p.key, p.value);
    if p.key == name {
      assert body[|name| + 1..] == p.value;
    }
  }

  /**
   * Reading back what the browser stores: over the jar's text, `getCookie`
   * finds exactly the browser's own first value for the name.
   */
  lemma GetCookieReadsJar(jar: seq<Pair>, name: string)
    requires forall i :: 0 <= i < |jar| ==> WellFormedPair(jar[i])
    requires '=' !in name
    ensures GetCookie(Some(JarText(jar)), name) == Lookup(jar, name)
  {
    if |jar| == 0 {
      assert JarText(jar) == "" && Split("", ';') == [""];
      assert !SegmentMatches("", name);
      return;
    }
    var segs := JarSegments(jar);
    forall i | 0 <= i < |segs|
      ensures ';' !in segs[i]
    {
      assert segs[i] == (if i == 0 then "" else " ") + jar[i].key + "=" + jar[i].value;
    }
    SplitJoin(segs, ';');
    forall i | 0 <= i < |jar|
      ensures SegmentMatches(segs[i], name) <==> jar[i].key == name
    {
      JarSegmentMatches(jar, name, i);
    }
    var g := FirstMatch(segs, name);
    var l := Lookup(jar, name);
    if g.Some? {
      var i :| IsFirstMatch(segs, name, i) && g.value == SegmentValue(segs[i], name);
      JarSegmentMatches(jar, name, i);
      var k :| 0 <= k < |jar| && jar[k].key == name && l.value == jar[k].value
               && forall j :: 0 <= j < k ==> jar[j].key != name;
      assert IsFirstMatch(segs, name, k);
      FirstMatchUnique(segs, name, i, k);
      JarSegmentMatches(jar, name, k);
    }
  }

  // ----- writing -----

  /**
   * The text `setCookie` assigns to `document.cookie`. `expiry` stands for
   * `date.toUTCString()` of the instant `days` days from now; a zero `days` (falsy) omits it.
   */
  function CookieAssignment(name: string, value: string, days: int, expiry: string): string {
    name + "=" + value + (if days != 0 then "; expires=" + expiry else "") + "; path=/"
  }

  /** `setCookie`: the assignment made, or `None` when there is no document. */
  function SetCookie(hasDocument: bool, name: string, value: string, days: int, expiry: string): (r: Option<string>)
    ensures r.Some? <==> hasDocument
    ensures r.Some? ==> IsPrefix(name + "=" + value, r.value)
  {
    if hasDocument then
      var a := CookieAssignment(name, value, days, expiry);
      assert a == (name + "=" + value) + ((if days != 0 then "; expires=" + expiry else "") + "; path=/");
      Some(a)
    else None
  }

  /**
   * A session cookie is exactly `name=value; path=/`; a persistent one is
   * split into `name=value`, ` expires=…` and ` path=/`.
   */
  lemma CookieAssignmentSegments(name: string, value: string, days: int, expiry: string)
    requires ';' !in name && ';' !in value && ';' !in expiry
    ensures days == 0 ==> CookieAssignment(name, value, days, expiry) == name + "=" + value + "; path=/"
    ensures days == 0 ==> Split(CookieAssignment(name, value, days, expiry), ';') == [name + "=" + value, " path=/"]
    ensures days != 0 ==> Split(CookieAssignment(name, value, days, expiry), ';')
                          == [name + "=" + value, " expires=" + expiry, " path=/"]
  {
    var nv := name + "=" + value;
    assert ';' !in nv by { assert forall i :: 0 <= i < |nv| ==> nv[i] == (if i < |name| then name[i] else if i == |name| then '=' else value[i - |name| - 1]); }
    var ex := " expires=" + expiry;
    assert ';' !in ex by { assert forall i :: 0 <= i < |ex| ==> ex[i] == (if i < 9 then " expires="[i] else expiry[i - 9]); }
    assert ';' !in " path=/";
    if days == 0 {
      assert CookieAssignment(name, value, days, expiry) == Join([nv, " path=/"], ';');
      SplitJoin([nv, " path=/"], ';');
    } else {
      assert [nv, ex, " path=/"][1..] == [ex, " path=/"];
      assert [ex, " path=/"][1..] == [" path=/"];
      assert Join([ex, " path=/"], ';') == ex + [';'] + " path=/";
      assert Join([nv, ex, " path=/"], ';') == nv + [';'] + (ex + [';'] + " path=/");
      assert CookieAssignment(name, value, days, expiry) == nv + [';'] + (ex + [';'] + " path=/");
      SplitJoin([nv, ex, " path=/"], ';');
    }
  }

  /** The first `;`-segment of an assignment is `name=value`. */
  lemma AssignmentFirstSegment(name: string, value: string, days: int, expiry: string)
    requires ';' !in name && ';' !in value
    ensures Split(CookieAssignment(name, value, days, expiry), ';')[0] == name + "=" + value
  {
    var seg := name + "=" + value;
    var rest := (if days != 0 then " expires=" + expiry + ";" else "") + " path=/";
    assert CookieAssignment(name, value, days, expiry) == seg + [';'] + rest;
    assert ';' !in seg;
    SplitFirst(seg, ';', rest);
  }

  /**
   * The pair a browser stores for an assignment (section 5.2 of RFC 6265):
   * the text before the first `;`, without its leading spaces, split at its
   * first `=`; an assignment with no `=` or an empty name is ignored.
   */
  function AssignedPair(assignment: string): (r: Option<Pair>)
    ensures r.Some? ==> WellFormedPair(r.value) && r.value.key != ""
  {
    var seg := Split(assignment, ';')[0];
    var nv := TrimLeadingSpaces(seg);
    match IndexOfChar(nv, '=')
    case None => None
    case Some(i) =>
      if i == 0 then None
      else
        NotInSlice(seg, ';', |seg| - |nv|, |seg|);
        NotInSlice(nv, ';', 0, i);
        NotInSlice(nv, ';', i + 1, |nv|);
        Some(Pair(nv[..i], nv[i + 1..]))
  }

  /** A character missing from a text is missing from every slice of it. */
  lemma NotInSlice(s: string, c: char, i: nat, j: nat)
    requires c !in s && i <= j <= |s|
    ensures c !in s[i..j]
  {
    assert forall k :: 0 <= k < j - i ==> s[i..j][k] == s[i + k];
  }

  /**
   * The browser keeps one value per name: a pair with the same key is
   * replaced where it stands, a new key is added at the end.
   */
  function Store(jar: seq<Pair>, p: Pair): (r: seq<Pair>)
    ensures Lookup(jar, p.key).None? ==> r == jar + [p]
    ensures Lookup(jar, p.key).Some? ==> |r| == |jar|
    ensures forall i :: 0 <= i < |r| ==> r[i] == p || (i < |jar| && r[i] == jar[i])
    decreases |jar|
  {
    if |jar| == 0 then [p]
    else if jar[0].key == p.key then [p] + jar[1..]
    else
      var rest := Store(jar[1..], p);
      assert Lookup(jar, p.key) == Lookup(jar[1..], p.key);
      [jar[0]] + rest
  }

  /** After storing, the name reads as the stored value and every other name as before. */
  lemma {:induction false} StoreReads(jar: seq<Pair>, p: Pair, name: string)
    ensures Lookup(Store(jar, p), name) == if name == p.key then Some(p.value) else Lookup(jar, name)
    decreases |jar|
  {
    if |jar| > 0 && jar[0].key != p.key {
      var rest := Store(jar[1..], p);
      assert Store(jar, p) == [jar[0]] + rest;
      assert ([jar[0]] + rest)[1..] == rest;
      StoreReads(jar[1..], p, name);
    }
  }

  /** The jar after assigning `assignment` to `document.cookie`. */
  function Assign(jar: seq<Pair>, assignment: string): (r: seq<Pair>)
    ensures AssignedPair(assignment).None? ==> r == jar
    ensures (forall i :: 0 <= i < |jar| ==> WellFormedPair(jar[i])) ==> forall i :: 0 <= i < |r| ==> WellFormedPair(r[i])
  {
    match AssignedPair(assignment)
    case None => jar
    case Some(p) => Store(jar, p)
  }

  /** The browser stores exactly the name and value `setCookie` was given. */
  lemma AssignedPairOfCookie(name: string, value: string, days: int, expiry: string)
    requires name != "" && ';' !in name && '=' !in name && name[0] != ' '
    requires ';' !in value
    ensures AssignedPair(CookieAssignment(name, value, days, expiry)) == Some(Pair(name, value))
  {
    AssignmentFirstSegment(name, value, days, expiry);
    var seg := name + "=" + value;
    assert seg[0] == name[0];
    assert TrimLeadingSpaces(seg) == seg;
    assert seg[|name|] == '=' && seg[..|name|] == name;
    IndexOfCharAt(seg, '=', |name|);
    assert seg[|name| + 1..] == value;
  }

  /**
   * A cookie written with `setCookie` is what `getCookie` reads back from
   * the jar afterwards, and every other name reads as before.
   */
  lemma SetCookieThenGetCookie(jar: seq<Pair>, name: string, value: string, days: int, expiry: string)
    requires forall i :: 0 <= i < |jar| ==> WellFormedPair(jar[i])
    requires name != "" && ';' !in name && '=' !in name && name[0] != ' '
    requires ';' !in value
    ensures GetCookie(Some(JarText(Assign(jar, CookieAssignment(name, value, days, expiry)))), name) == Some(value)
    ensures forall other :: other != name && '=' !in other ==>
              GetCookie(Some(JarText(Assign(jar, CookieAssignment(name, value, days, expiry)))), other)
              == GetCookie(Some(JarText(jar)), other)
  {
    AssignedPairOfCookie(name, value, days, expiry);
    var p := Pair(name, value);
    var after := Assign(jar, CookieAssignment(name, value, days, expiry));
    assert after == Store(jar, p);
    StoreReads(jar, p, name);
    GetCookieReadsJar(after, name);
    forall other | other != name && '=' !in other
      ensures GetCookie(Some(JarText(after)), other) == GetCookie(Some(JarText(jar)), other)
    {
      StoreReads(jar, p, other);
      GetCookieReadsJar(after, other);
      GetCookieReadsJar(jar, other);
    }
  }
}
