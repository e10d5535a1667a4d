/**
 * The element searches of the content scripts share one shape: an outer loop over
 * search texts, an inner loop over the page's elements, and the first pair that
 * matches is clicked ("texts-major" order). Elements are given by what the script
 * reads of them (their text, their aria-label), in document order.
 */
module Search {
  import opened Optional
  import opened Text

  // ---------------------------------------------------------------------------
  // The tests the scripts apply to an element's text
  // ---------------------------------------------------------------------------

  /** `el.textContent.toLowerCase().includes(text.toLowerCase())`. */
  predicate TextIncludes(text: string, elText: string) {
    Contains(Lower(elText), Lower(text))
  }

  /** `el.textContent.trim().toLowerCase().includes(text.toLowerCase())`. */
  predicate TrimmedIncludes(text: string, elText: string) {
    Contains(Lower(Trim(elText, JsSpace)), Lower(text))
  }

  /** `el.textContent.trim().toLowerCase() === text.toLowerCase()`. */
  predicate TrimmedEquals(text: string, elText: string) {
    Lower(Trim(elText, JsSpace)) == Lower(text)
  }

  // ---------------------------------------------------------------------------
  // Texts-major first match
  // ---------------------------------------------------------------------------

  /** No pair `(texts[a], els[b])` that comes before `(ti, j)` in texts-major order matches. */
  ghost predicate NoMatchBefore<E>(texts: seq<string>, els: seq<E>, m: (string, E) -> bool, ti: int, j: int) {
    forall a, b :: 0 <= a < |texts| && 0 <= b < |els| && (a < ti || (a == ti && b < j)) ==> !m(texts[a], els[b])
  }

  /** No pair matches at all. */
  ghost predicate NoMatch<E>(texts: seq<string>, els: seq<E>, m: (string, E) -> bool) {
    NoMatchBefore(texts, els, m, |texts|, 0)
  }

  /** `(ti, j)` is the first matching pair in texts-major order. */
  ghost predicate IsFirstMatch<E>(texts: seq<string>, els: seq<E>, m: (string, E) -> bool, ti: int, j: int) {
    && 0 <= ti < |texts| && 0 <= j < |els|
    && m(texts[ti], els[j])
    && NoMatchBefore(texts, els, m, ti, j)
  }

  /** Element `j` is the one a texts-major search clicks. */
  ghost predicate ClicksElement<E>(texts: seq<string>, els: seq<E>, m: (string, E) -> bool, j: int) {
    exists ti :: IsFirstMatch(texts, els, m, ti, j)
  }

  /** There is at most one first match. */
  lemma FirstMatchUnique<E>(texts: seq<string>, els: seq<E>, m: (string, E) -> bool, t1: int, j1: int, t2: int, j2: int)
    requires IsFirstMatch(texts, els, m, t1, j1) && IsFirstMatch(texts, els, m, t2, j2)
    ensures t1 == t2 && j1 == j2
  {
  }

  /**
   * The nested loops: `for (const text of texts) for (const el of els) if (m(text, el)) return el`.
   * Gives the indices of the text and of the element clicked, or None when nothing matches.
   */
  method FirstTextsMajor<E>(texts: seq<string>, els: seq<E>, m: (string, E) -> bool) returns (hit: Option<(nat, nat)>)
    ensures hit.None? <==> NoMatch(texts, els, m)
    ensures hit.Some? ==> IsFirstMatch(texts, els, m, hit.value.0, hit.value.1)
  {
    var ti := 0;
    while ti < |texts|
      invariant 0 <= ti <= |texts|
      invariant NoMatchBefore(texts, els, m, ti, 0)
    {
      var j := 0;
      while j < |els|
        invariant 0 <= j <= |els|
        invariant NoMatchBefore(texts, els, m, ti, j)
      {
        if m(texts[ti], els[j]) {
          return Some((ti, j));
        }
        j := j + 1;
      }
      ti := ti + 1;
    }
    return None;
  }

  // ---------------------------------------------------------------------------
  // Elements-major first match
  // ---------------------------------------------------------------------------

  /** Some search text matches the element. */
  ghost predicate MatchesSome<E>(texts: seq<string>, el: E, m: (string, E) -> bool) {
    exists k :: 0 <= k < |texts| && m(texts[k], el)
  }

  /**
   * The nested loops the other way round: `for (const el of els) for (const text of texts)
   * if (m(text, el)) return el`. The first element in document order that any text matches.
   */
  method FirstElementsMajor<E>(texts: seq<string>, els: seq<E>, m: (string, E) -> bool) returns (clicked: Option<nat>)
    ensures clicked.None? <==> forall j :: 0 <= j < |els| ==> !MatchesSome(texts, els[j], m)
    ensures clicked.Some? ==>
              && clicked.value < |els|
              && MatchesSome(texts, els[clicked.value], m)
              && forall j :: 0 <= j < clicked.value ==> !MatchesSome(texts, els[j], m)
  {
    var j := 0;
    while j < |els|
      invariant 0 <= j <= |els|
      invariant forall b :: 0 <= b < j ==> !MatchesSome(texts, els[b], m)
    {
      var k := 0;
      while k < |texts|
        invariant 0 <= k <= |texts|
        invariant forall a :: 0 <= a < k ==> !m(texts[a], els[j])
      {
        if m(texts[k], els[j]) {
          return Some(j);
        }
        k := k + 1;
      }
      j := j + 1;
    }
    return None;
  }
}
