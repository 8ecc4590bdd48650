/** Python's `re.findall`, `re.finditer` and `re.search`, for a pattern given as a
    matcher. A matcher looks at the START of the string it is given and returns how
    many characters the match takes together with what the match captured. None of
    the patterns of the bill parser uses anchors or look-behind, so whether a pattern
    matches at position p of a text, and how, depends only on the text from p on;
    scanning suffixes is therefore the same as scanning positions. */
module Scan {

  datatype Hit<T> = Hit(len: nat, value: T)

  /** A matcher never matches the empty string and never reaches past its input. */
  ghost predicate Consumes<T(!new)>(m: string -> Option<Hit<T>>) {
    forall t :: m(t).Some? ==> 0 < m(t).value.len <= |t|
  }

  datatype Option<T> = None | Some(value: T)

  /** `re.findall` / `re.finditer`: try the pattern at each position from left to
      right; after a match resume right behind it, otherwise one character later. */
  function FindAll<T(!new)>(s: string, m: string -> Option<Hit<T>>): seq<T>
    requires Consumes(m)
    decreases |s|
  {
    match m(s)
    case Some(h) => [h.value] + FindAll(s[h.len..], m)
    case None => if s == [] then [] else FindAll(s[1..], m)
  }

  /** `re.search`: the match at the leftmost position where the pattern matches. */
  function Search<T>(s: string, m: string -> Option<T>): Option<T>
    decreases |s|
  {
    if m(s).Some? then m(s) else if s == [] then None else Search(s[1..], m)
  }

  /** Where nothing matches, findall finds nothing. */
  lemma {:induction false} FindAllNone<T(!new)>(s: string, m: string -> Option<Hit<T>>)
    requires Consumes(m)
    requires forall i :: 0 <= i <= |s| ==> m(s[i..]).None?
    ensures FindAll(s, m) == []
    decreases |s|
  {
    assert s[0..] == s;
    if s != [] {
      forall i | 0 <= i <= |s[1..]| ensures m(s[1..][i..]).None? {
        assert s[1..][i..] == s[1 + i..];
      }
      FindAllNone(s[1..], m);
    }
  }

  /** The first element findall returns is the match at the leftmost matching
      position, and the rest are found in the text behind that match. Together with
      FindAllNone this determines FindAll completely: the matches are leftmost-first
      and do not overlap. */
  lemma FindAllFirst<T(!new)>(s: string, m: string -> Option<Hit<T>>, j: nat)
    requires Consumes(m)
    requires j <= |s| && m(s[j..]).Some?
    requires forall i :: 0 <= i < j ==> m(s[i..]).None?
    ensures FindAll(s, m) == [m(s[j..]).value.value] + FindAll(s[j + m(s[j..]).value.len..], m)
  {
    SkipToFirst(s, m, j);
    var h := m(s[j..]).value;
    FindAllHit(s[j..], m, h);
    assert s[j..][h.len..] == s[j + h.len..];
  }

  /** Where there is no match before position k, findall starts looking at k. */
  lemma {:induction false} SkipToFirst<T(!new)>(s: string, m: string -> Option<Hit<T>>, k: nat)
    requires Consumes(m)
    requires k <= |s|
    requires forall i :: 0 <= i < k ==> m(s[i..]).None?
    ensures FindAll(s, m) == FindAll(s[k..], m)
    decreases k
  {
    if k == 0 {
      assert s[0..] == s;
    } else {
      SkipToFirst(s, m, k - 1);
      FindAllMiss(s[k - 1..], m);
      assert s[k - 1..][1..] == s[k..];
    }
  }

  /** A property every single match has is had by everything findall returns. */
  lemma {:induction false} FindAllEvery<T(!new)>(s: string, m: string -> Option<Hit<T>>, p: T -> bool)
    requires Consumes(m)
    requires forall t :: m(t).Some? ==> p(m(t).value.value)
    ensures forall k :: 0 <= k < |FindAll(s, m)| ==> p(FindAll(s, m)[k])
    decreases |s|
  {
    match m(s)
    case Some(h) => FindAllEvery(s[h.len..], m, p);
    case None => if s != [] { FindAllEvery(s[1..], m, p); }
  }

  /** If the pattern matches somewhere, search finds a match. */
  lemma {:induction false} SearchFinds<T>(s: string, m: string -> Option<T>, j: nat)
    requires j <= |s| && m(s[j..]).Some?
    ensures Search(s, m).Some?
    decreases j
  {
    assert s[0..] == s;
    if j > 0 && m(s).None? {
      assert s[1..][j - 1..] == s[j..];
      SearchFinds(s[1..], m, j - 1);
    }
  }

  /** Whatever search returns is a match of the pattern at some position. */
  lemma {:induction false} SearchIsMatch<T>(s: string, m: string -> Option<T>)
    requires Search(s, m).Some?
    ensures exists j :: 0 <= j <= |s| && m(s[j..]) == Search(s, m)
    decreases |s|
  {
    assert s[0..] == s;
    if m(s).None? {
      SearchIsMatch(s[1..], m);
      var j :| 0 <= j <= |s[1..]| && m(s[1..][j..]) == Search(s[1..], m);
      assert s[1..][j..] == s[1 + j..];
    }
  }

  /** `re.search` finds exactly the first thing `re.findall` finds. */
  lemma {:induction false} SearchIsFirstFound<T(!new)>(s: string, m: string -> Option<Hit<T>>)
    requires Consumes(m)
    ensures Search(s, m).None? <==> FindAll(s, m) == []
    ensures Search(s, m).Some? ==> FindAll(s, m)[0] == Search(s, m).value.value
    decreases |s|
  {
    if m(s).None? && s != [] {
      SearchIsFirstFound(s[1..], m);
    }
  }

  /** One step of findall where the pattern matches at the start. */
  lemma FindAllHit<T(!new)>(s: string, m: string -> Option<Hit<T>>, h: Hit<T>)
    requires Consumes(m) && m(s) == Some(h)
    ensures FindAll(s, m) == [h.value] + FindAll(s[h.len..], m)
  {
  }

  /** One step of findall where the pattern does not match at the start. */
  lemma FindAllMiss<T(!new)>(s: string, m: string -> Option<Hit<T>>)
    requires Consumes(m) && m(s).None? && s != []
    ensures FindAll(s, m) == FindAll(s[1..], m)
  {
  }

  /** Where nothing matches, search finds nothing. */
  lemma {:induction false} SearchNone<T>(s: string, m: string -> Option<T>)
    requires forall i :: 0 <= i <= |s| ==> m(s[i..]).None?
    ensures Search(s, m).None?
    decreases |s|
  {
    assert s[0..] == s;
    if s != [] {
      forall i | 0 <= i <= |s[1..]| ensures m(s[1..][i..]).None? {
        assert s[1..][i..] == s[1 + i..];
      }
      SearchNone(s[1..], m);
    }
  }
}
