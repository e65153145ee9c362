/** Service lookup in the availability tool
    (app/ai/tools/consultar_disponibilidade_tool.py): by identifier, and by a
    free-text term matched exactly, then as a substring, then word by word.
    A lookup answers with the position of the chosen service in the list. */
module Catalog {
  import opened Text
  import opened Values
  import opened Shared

  /** `str(s.get("nome", ""))`: a missing name is the empty string, a `None`
      name the text "None". */
  function NameOf(s: Dict): string {
    Str(GetOr(s, "nome", VStr("")))
  }

  /** The first position, in list order, whose record satisfies `p`. */
  function FirstIndex(xs: seq<Dict>, p: Dict -> bool): (r: Option<nat>)
    ensures r.Some? ==> r.value < |xs| && p(xs[r.value])
    ensures r.Some? ==> forall j :: 0 <= j < r.value ==> !p(xs[j])
    ensures r.None? ==> forall j :: 0 <= j < |xs| ==> !p(xs[j])
    decreases |xs|
  {
    if xs == [] then None
    else if p(xs[0]) then Some(0)
    else
      match FirstIndex(xs[1..], p)
      case None => None
      case Some(j) => Some(j + 1)
  }

  /** `s.get("id") == servico_id`. */
  predicate HasId(s: Dict, id: int) {
    PyEq(GetOrNone(s, "id"), VInt(id))
  }

  /** `_pick_service_by_id`: the first service carrying the identifier. */
  function PickServiceById(services: seq<Dict>, id: int): (r: Option<nat>)
    ensures r.Some? ==> r.value < |services| && HasId(services[r.value], id)
    ensures r.Some? ==> forall j :: 0 <= j < r.value ==> !HasId(services[j], id)
    ensures r.None? <==> forall j :: 0 <= j < |services| ==> !HasId(services[j], id)
  {
    FirstIndex(services, s => HasId(s, id))
  }

  // -------------------------------------------------------------------
  // _pick_service_by_term
  // -------------------------------------------------------------------

  /** `_normalize_service_term(term).lower().strip()`. */
  function QueryText(term: string, vocab: Vocabulary): string {
    Strip(Lower(NormalizeServiceTerm(Some(term), vocab).value))
  }

  /** Stage 1: the lowered, stripped name equals the query. */
  predicate ExactName(s: Dict, t: string) {
    Strip(Lower(NameOf(s))) == t
  }

  /** Stage 2: the query occurs in the lowered name. */
  predicate NameContains(s: Dict, t: string) {
    Contains(Lower(NameOf(s)), t)
  }

  /** `[w for w in t.split() if len(w) >= 3]`. */
  function LongWords(ws: seq<string>): (r: seq<string>)
    ensures |r| <= |ws|
    ensures forall k :: 0 <= k < |r| ==> |r[k]| >= 3 && r[k] in ws
    decreases |ws|
  {
    if ws == [] then []
    else (if |ws[0]| >= 3 then [ws[0]] else []) + LongWords(ws[1..])
  }

  /** A word is kept exactly when it is a query word of three letters or more. */
  lemma {:induction false} LongWordsIff(ws: seq<string>, w: string)
    ensures w in LongWords(ws) <==> w in ws && |w| >= 3
    decreases |ws|
  {
    if ws != [] {
      LongWordsIff(ws[1..], w);
      assert ws == [ws[0]] + ws[1..];
    }
  }

  /** The filter works segment by segment, so word order and repeats are kept. */
  lemma {:induction false} LongWordsAppend(a: seq<string>, b: seq<string>)
    ensures LongWords(a + b) == LongWords(a) + LongWords(b)
    decreases |a|
  {
    if a == [] {
      assert a + b == b;
    } else {
      var head := if |a[0]| >= 3 then [a[0]] else [];
      LongWordsAppend(a[1..], b);
      assert (a + b)[0] == a[0];
      assert (a + b)[1..] == a[1..] + b;
      assert LongWords(a) == head + LongWords(a[1..]);
      assert LongWords(a + b) == head + LongWords(a[1..] + b);
    }
  }

  /** A single word is kept exactly when it has three letters or more. */
  lemma LongWordsSingle(w: string)
    ensures LongWords([w]) == (if |w| >= 3 then [w] else [])
  {
    assert [w][1..] == [];
  }

  /** `sum(1 for w in words if w in name)`: repeated query words count again.
      The score is zero exactly when the name contains no query word, and
      the number of words exactly when it contains all of them. */
  function Score(s: Dict, words: seq<string>): (n: nat)
    ensures n <= |words|
    ensures n == 0 <==> forall k :: 0 <= k < |words| ==> !NameContains(s, words[k])
    ensures n == |words| <==> forall k :: 0 <= k < |words| ==> NameContains(s, words[k])
    decreases |words|
  {
    if words == [] then 0
    else (if NameContains(s, words[0]) then 1 else 0) + Score(s, words[1..])
  }

  /** The score adds up over the query words, one point per contained word. */
  lemma {:induction false} ScoreAppend(s: Dict, a: seq<string>, b: seq<string>)
    ensures Score(s, a + b) == Score(s, a) + Score(s, b)
    decreases |a|
  {
    if a == [] {
      assert a + b == b;
    } else {
      ScoreAppend(s, a[1..], b);
      assert (a + b)[0] == a[0];
      assert (a + b)[1..] == a[1..] + b;
    }
  }

  /** Among the first `n` services whose name contains `t`, the shortest
      name, the earliest of equally short ones: the head of the list after
      Python's stable sort by name length. */
  function ShortestContaining(services: seq<Dict>, t: string, n: nat): (r: Option<nat>)
    requires n <= |services|
    ensures r.Some? ==> r.value < n && NameContains(services[r.value], t)
    ensures r.Some? ==> forall j :: 0 <= j < n && NameContains(services[j], t) ==>
                          |NameOf(services[r.value])| <= |NameOf(services[j])|
    ensures r.Some? ==> forall j :: 0 <= j < r.value && NameContains(services[j], t) ==>
                          |NameOf(services[r.value])| < |NameOf(services[j])|
    ensures r.None? <==> forall j :: 0 <= j < n ==> !NameContains(services[j], t)
    decreases n
  {
    if n == 0 then None
    else
      var prev := ShortestContaining(services, t, n - 1);
      var s := services[n - 1];
      if !NameContains(s, t) then prev
      else if prev.None? || |NameOf(s)| < |NameOf(services[prev.value])| then Some(n - 1)
      else prev
  }

  /** Service `a` ranks strictly before service `b` in the sort on
      (descending score, ascending name length). */
  predicate RanksBefore(a: Dict, b: Dict, words: seq<string>) {
    Score(a, words) > Score(b, words) ||
    (Score(a, words) == Score(b, words) && |NameOf(a)| < |NameOf(b)|)
  }

  /** The score of every service, in list order. */
  function Scores(services: seq<Dict>, words: seq<string>): (r: seq<nat>)
    ensures |r| == |services|
    ensures forall i :: 0 <= i < |services| ==> r[i] == Score(services[i], words)
  {
    seq(|services|, i requires 0 <= i < |services| => Score(services[i], words))
  }

  /** The length of every service name, in list order. */
  function NameLengths(services: seq<Dict>): (r: seq<nat>)
    ensures |r| == |services|
    ensures forall i :: 0 <= i < |services| ==> r[i] == |NameOf(services[i])|
  {
    seq(|services|, i requires 0 <= i < |services| => |NameOf(services[i])|)
  }

  /** Position `i` sorts strictly before position `j`: higher score, or the
      same score and a shorter name. */
  predicate SortsBefore(scores: seq<nat>, lengths: seq<nat>, i: nat, j: nat)
    requires i < |scores| && j < |scores| && |lengths| == |scores|
  {
    scores[i] > scores[j] || (scores[i] == scores[j] && lengths[i] < lengths[j])
  }

  /** Among the first `n` positions with a positive score, the first one
      that no other sorts before. */
  function BestOf(scores: seq<nat>, lengths: seq<nat>, n: nat): (r: Option<nat>)
    requires n <= |scores| && |lengths| == |scores|
    ensures r.Some? ==> r.value < n && scores[r.value] > 0
    ensures r.None? <==> forall j :: 0 <= j < n ==> scores[j] == 0
    decreases n
  {
    if n == 0 then None
    else
      var prev := BestOf(scores, lengths, n - 1);
      if scores[n - 1] == 0 then prev
      else if prev.None? || SortsBefore(scores, lengths, n - 1, prev.value) then Some(n - 1)
      else prev
  }

  /** Nothing positive sorts before the chosen position, and it sorts
      strictly before every earlier positive one. */
  lemma {:induction false} BestOfRanks(scores: seq<nat>, lengths: seq<nat>, n: nat)
    requires n <= |scores| && |lengths| == |scores|
    ensures var r := BestOf(scores, lengths, n);
            r.Some? ==> forall j :: 0 <= j < n && scores[j] > 0 ==> !SortsBefore(scores, lengths, j, r.value)
    ensures var r := BestOf(scores, lengths, n);
            r.Some? ==> forall j :: 0 <= j < r.value && scores[j] > 0 ==> SortsBefore(scores, lengths, r.value, j)
    decreases n
  {
    if n > 0 {
      BestOfRanks(scores, lengths, n - 1);
    }
  }

  /** `scored.sort(...)` then `scored[0]`, over the first `n` services. */
  function BestScored(services: seq<Dict>, words: seq<string>, n: nat): (r: Option<nat>)
    requires n <= |services|
    ensures r.Some? ==> r.value < n && Score(services[r.value], words) > 0
    ensures r.None? <==> forall j :: 0 <= j < n ==> Score(services[j], words) == 0
  {
    BestOf(Scores(services, words), NameLengths(services), n)
  }

  /** The ranking `BestScored` answers with. */
  lemma BestScoredRanks(services: seq<Dict>, words: seq<string>, n: nat)
    requires n <= |services|
    ensures var r := BestScored(services, words, n);
            r.Some? ==> forall j :: 0 <= j < n && Score(services[j], words) > 0 ==>
                          !RanksBefore(services[j], services[r.value], words)
    ensures var r := BestScored(services, words, n);
            r.Some? ==> forall j :: 0 <= j < r.value && Score(services[j], words) > 0 ==>
                          RanksBefore(services[r.value], services[j], words)
  {
    BestOfRanks(Scores(services, words), NameLengths(services), n);
  }

  /** Stage 1 on its own: the first service whose name is the query. */
  function ExactMatch(services: seq<Dict>, t: string): (r: Option<nat>)
    ensures r.Some? ==> r.value < |services| && ExactName(services[r.value], t)
    ensures r.Some? ==> forall j :: 0 <= j < r.value ==> !ExactName(services[j], t)
    ensures r.None? <==> forall j :: 0 <= j < |services| ==> !ExactName(services[j], t)
  {
    FirstIndex(services, s => ExactName(s, t))
  }

  /** The three stages applied to a non-empty query `t`. */
  function PickByQuery(services: seq<Dict>, t: string): (r: Option<nat>)
    ensures r.Some? ==> r.value < |services|
  {
    var exact := ExactMatch(services, t);
    if exact.Some? then exact
    else
      var containing := ShortestContaining(services, t, |services|);
      if containing.Some? then containing
      else BestScored(services, LongWords(Words(t)), |services|)
  }

  /** `_pick_service_by_term`. */
  function PickServiceByTerm(services: seq<Dict>, term: string, vocab: Vocabulary): (r: Option<nat>)
    ensures r.Some? ==> r.value < |services|
    ensures QueryText(term, vocab) == "" ==> r.None?
    ensures QueryText(term, vocab) != "" ==> r == PickByQuery(services, QueryText(term, vocab))
  {
    var t := QueryText(term, vocab);
    if t == "" then None else PickByQuery(services, t)
  }

  /** `t in s` holds for every slice `t` of `s`. */
  lemma {:induction false} ContainsSlice(s: string, i: nat, j: nat)
    requires i <= j <= |s|
    ensures Contains(s, s[i..j])
    decreases i
  {
    if i > 0 {
      ContainsSlice(s[1..], i - 1, j - 1);
      assert s[1..][i - 1..j - 1] == s[i..j];
    } else {
      assert s[..j - i] == s[i..j];
    }
  }

  /** `s.strip() in s`. */
  lemma StripContained(s: string)
    ensures Contains(s, Strip(s))
  {
    var i := LeadingSpaces(s);
    ContainsSlice(s, i, i + |Strip(s)|);
  }

  /** A name that matches exactly also contains the query. */
  lemma ExactNameContains(s: Dict, t: string)
    requires ExactName(s, t)
    ensures NameContains(s, t)
  {
    StripContained(Lower(NameOf(s)));
  }

  /** When no name contains the query, none is exactly the query either. */
  lemma NoExactWithoutContaining(services: seq<Dict>, t: string)
    requires forall j :: 0 <= j < |services| ==> !NameContains(services[j], t)
    ensures ExactMatch(services, t).None?
  {
    forall j | 0 <= j < |services| ensures !ExactName(services[j], t) {
      if ExactName(services[j], t) {
        ExactNameContains(services[j], t);
      }
    }
  }

  /** Stage 1 wins whenever some name is exactly the query. */
  lemma ExactStageWins(services: seq<Dict>, t: string, i: nat)
    requires i < |services| && ExactName(services[i], t)
    ensures var r := PickByQuery(services, t);
            r.Some? && ExactName(services[r.value], t)
            && forall j :: 0 <= j < r.value ==> !ExactName(services[j], t)
  {
  }

  /** Without an exact name, the shortest containing name, earliest on ties, wins. */
  lemma ContainsStageWins(services: seq<Dict>, t: string, i: nat)
    requires forall j :: 0 <= j < |services| ==> !ExactName(services[j], t)
    requires i < |services| && NameContains(services[i], t)
    ensures var r := PickByQuery(services, t);
            r.Some? && NameContains(services[r.value], t)
            && (forall j :: 0 <= j < |services| && NameContains(services[j], t) ==>
                  |NameOf(services[r.value])| <= |NameOf(services[j])|)
            && (forall j :: 0 <= j < r.value && NameContains(services[j], t) ==>
                  |NameOf(services[r.value])| < |NameOf(services[j])|)
  {
  }

  /** Without a containing name, the best word score wins: highest score,
      then shortest name, then earliest. */
  lemma ScoreStageWins(services: seq<Dict>, t: string, i: nat)
    requires forall j :: 0 <= j < |services| ==> !NameContains(services[j], t)
    requires i < |services| && Score(services[i], LongWords(Words(t))) > 0
    ensures var words := LongWords(Words(t));
            var r := PickByQuery(services, t);
            r.Some? && Score(services[r.value], words) > 0
            && (forall j :: 0 <= j < |services| && Score(services[j], words) > 0 ==>
                  !RanksBefore(services[j], services[r.value], words))
            && (forall j :: 0 <= j < r.value && Score(services[j], words) > 0 ==>
                  RanksBefore(services[r.value], services[j], words))
  {
    NoExactWithoutContaining(services, t);
    assert ShortestContaining(services, t, |services|).None?;
    assert PickByQuery(services, t) == BestScored(services, LongWords(Words(t)), |services|);
    BestScoredRanks(services, LongWords(Words(t)), |services|);
  }

  /** Nothing is chosen exactly when no name contains the query nor any of
      its words of three or more letters. */
  lemma NoMatchIff(services: seq<Dict>, t: string)
    ensures PickByQuery(services, t).None? <==>
            forall i :: 0 <= i < |services| ==>
              !NameContains(services[i], t) && Score(services[i], LongWords(Words(t))) == 0
  {
    var words := LongWords(Words(t));
    var containing := ShortestContaining(services, t, |services|);
    var scored := BestScored(services, words, |services|);
    if forall i :: 0 <= i < |services| ==> !NameContains(services[i], t) {
      NoExactWithoutContaining(services, t);
      assert containing.None?;
      assert PickByQuery(services, t) == scored;
    } else {
      assert containing.Some? ==> PickByQuery(services, t).Some?;
    }
  }
}
