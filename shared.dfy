/** The helpers the tools share (app/ai/tools/shared.py): the service-term
    normaliser and the whitelist filters that shrink API records before they
    are handed to the language model. */
module Shared {
  import opened Text
  import opened Values

  /** The stop-word set and the alias table of the application
      (`STOPWORDS`, `SERVICE_ALIASES`), whose contents are data, not code. */
  datatype Vocabulary = Vocabulary(stopWords: set<string>, aliases: map<string, string>)

  // -------------------------------------------------------------------
  // _strip_accents
  // -------------------------------------------------------------------

  /** The combining diacritical marks U+0300..U+036F (Unicode category Mn). */
  predicate IsCombiningMark(c: char) {
    0x300 <= c as int <= 0x36F
  }

  /** The base letter of a Latin-1 letter whose canonical decomposition is
      a letter followed by combining marks; every other character is kept. */
  function BaseLetter(c: char): char {
    var n := c as int;
    if 0xC0 <= n <= 0xC5 then 'A'
    else if n == 0xC7 then 'C'
    else if 0xC8 <= n <= 0xCB then 'E'
    else if 0xCC <= n <= 0xCF then 'I'
    else if n == 0xD1 then 'N'
    else if 0xD2 <= n <= 0xD6 then 'O'
    else if 0xD9 <= n <= 0xDC then 'U'
    else if n == 0xDD then 'Y'
    else if 0xE0 <= n <= 0xE5 then 'a'
    else if n == 0xE7 then 'c'
    else if 0xE8 <= n <= 0xEB then 'e'
    else if 0xEC <= n <= 0xEF then 'i'
    else if n == 0xF1 then 'n'
    else if 0xF2 <= n <= 0xF6 then 'o'
    else if 0xF9 <= n <= 0xFC then 'u'
    else if n == 0xFD || n == 0xFF then 'y'
    else c
  }

  predicate IsAscii(s: string) {
    forall i :: 0 <= i < |s| ==> s[i] as int < 128
  }

  /** `_strip_accents`: decompose (NFD), then drop the combining marks. */
  function StripAccents(s: string): (r: string)
    ensures |r| <= |s|
    ensures forall i :: 0 <= i < |r| ==> !IsCombiningMark(r[i])
    ensures IsAscii(s) ==> r == s
    decreases |s|
  {
    if s == [] then []
    else if IsCombiningMark(s[0]) then StripAccents(s[1..])
    else [BaseLetter(s[0])] + StripAccents(s[1..])
  }

  /** Text without combining marks keeps its length, and every character
      becomes its base letter. */
  lemma {:induction false} StripAccentsBaseLetters(s: string)
    requires forall i :: 0 <= i < |s| ==> !IsCombiningMark(s[i])
    ensures |StripAccents(s)| == |s|
    ensures forall i :: 0 <= i < |s| ==> StripAccents(s)[i] == BaseLetter(s[i])
    decreases |s|
  {
    if s != [] {
      var rest := s[1..];
      assert forall i :: 0 <= i < |rest| ==> rest[i] == s[i + 1];
      StripAccentsBaseLetters(rest);
      var r := StripAccents(s);
      assert r == [BaseLetter(s[0])] + StripAccents(rest);
      forall i | 0 <= i < |s| ensures r[i] == BaseLetter(s[i]) {
        if i > 0 {
          assert r[i] == StripAccents(rest)[i - 1];
        }
      }
    }
  }

  /** Accents are removed piece by piece, so text order is kept. */
  lemma {:induction false} StripAccentsAppend(a: string, b: string)
    ensures StripAccents(a + b) == StripAccents(a) + StripAccents(b)
    decreases |a|
  {
    if a == [] {
      assert a + b == b;
    } else {
      StripAccentsAppend(a[1..], b);
      assert (a + b)[0] == a[0];
      assert (a + b)[1..] == a[1..] + b;
      StripAccentsHead(a);
      StripAccentsHead(a + b);
    }
  }

  lemma StripAccentsHead(s: string)
    requires s != []
    ensures StripAccents(s) == StripAccents([s[0]]) + StripAccents(s[1..])
  {
    StripAccentsChar(s[0]);
  }

  /** A lone combining mark disappears; any other character becomes its base letter. */
  lemma StripAccentsChar(c: char)
    ensures StripAccents([c]) == (if IsCombiningMark(c) then [] else [BaseLetter(c)])
  {
    assert [c][1..] == [];
  }

  /** "ção" loses its accents: c-cedilla and a-tilde keep their base letters. */
  lemma StripAccentsExample()
    ensures StripAccents("\U{e7}\U{e3}o") == "cao"
  {
  }

  // -------------------------------------------------------------------
  // _normalize_service_term
  // -------------------------------------------------------------------

  /** The characters the substitution keeps: the class `[a-z0-9\\s]` of the
      raw pattern holds a-z, 0-9, a backslash and the letter s, so every
      other character, whitespace included, becomes a space. */
  predicate IsTermChar(c: char) {
    ('a' <= c <= 'z') || ('0' <= c <= '9') || c == '\\'
  }

  function CleanChar(c: char): char {
    if IsTermChar(c) then c else ' '
  }

  function CleanText(s: string): (r: string)
    ensures |r| == |s|
    ensures forall i :: 0 <= i < |s| ==> r[i] == CleanChar(s[i])
  {
    seq(|s|, i requires 0 <= i < |s| => CleanChar(s[i]))
  }

  /** `[t for t in tokens if t not in STOPWORDS]`. */
  function WithoutStopWords(ws: seq<string>, stop: set<string>): (r: seq<string>)
    ensures |r| <= |ws|
    ensures forall k :: 0 <= k < |r| ==> r[k] !in stop && r[k] in ws
    decreases |ws|
  {
    if ws == [] then []
    else (if ws[0] in stop then [] else [ws[0]]) + WithoutStopWords(ws[1..], stop)
  }

  /** A word is kept exactly when it is an input word that is not a stop word. */
  lemma {:induction false} WithoutStopWordsIff(ws: seq<string>, stop: set<string>, w: string)
    ensures w in WithoutStopWords(ws, stop) <==> w in ws && w !in stop
    decreases |ws|
  {
    if ws != [] {
      WithoutStopWordsIff(ws[1..], stop, w);
      assert ws == [ws[0]] + ws[1..];
    }
  }

  /** The filter works segment by segment, so word order and repeats are kept. */
  lemma {:induction false} WithoutStopWordsAppend(a: seq<string>, b: seq<string>, stop: set<string>)
    ensures WithoutStopWords(a + b, stop) == WithoutStopWords(a, stop) + WithoutStopWords(b, stop)
    decreases |a|
  {
    if a == [] {
      assert a + b == b;
    } else {
      var head := if a[0] in stop then [] else [a[0]];
      WithoutStopWordsAppend(a[1..], b, stop);
      assert (a + b)[0] == a[0];
      assert (a + b)[1..] == a[1..] + b;
      assert WithoutStopWords(a, stop) == head + WithoutStopWords(a[1..], stop);
      assert WithoutStopWords(a + b, stop) == head + WithoutStopWords(a[1..] + b, stop);
    }
  }

  /** A single word is kept exactly when it is not a stop word. */
  lemma WithoutStopWordsSingle(w: string, stop: set<string>)
    ensures WithoutStopWords([w], stop) == (if w in stop then [] else [w])
  {
    assert [w][1..] == [];
  }

  /** The words left after lowering, removing accents, blanking every other
      character and dropping stop words. */
  function Tokens(term: string, vocab: Vocabulary): seq<string> {
    WithoutStopWords(Words(CleanText(StripAccents(Lower(term)))), vocab.stopWords)
  }

  /** The normalised phrase before alias substitution. */
  function Phrase(term: string, vocab: Vocabulary): string {
    JoinWith(Tokens(term, vocab), " ")
  }

  /** `_normalize_service_term`. */
  function NormalizeServiceTerm(term: Option<string>, vocab: Vocabulary): (r: Option<string>)
    ensures r.Some? <==> term.Some?
    ensures term == None || term == Some("") ==> r == term
    ensures term.Some? && Tokens(term.value, vocab) == [] ==> r == term
    ensures term.Some? && term.value != "" && Tokens(term.value, vocab) != [] ==>
              var p := Phrase(term.value, vocab);
              r == Some(if p in vocab.aliases then vocab.aliases[p] else p)
  {
    match term
    case None => None
    case Some(t) =>
      if t == "" then Some("")
      else
        var tokens := Tokens(t, vocab);
        if tokens == [] then Some(t)
        else
          var phrase := JoinWith(tokens, " ");
          Some(if phrase in vocab.aliases then vocab.aliases[phrase] else phrase)
  }

  predicate TermOrSpace(c: char) {
    IsTermChar(c) || c == ' '
  }

  predicate AllTermOrSpace(s: string) {
    forall i :: 0 <= i < |s| ==> TermOrSpace(s[i])
  }

  lemma TrimKeepsChars(s: string)
    requires AllTermOrSpace(s)
    ensures AllTermOrSpace(TrimStart(s))
  {
    var t := TrimStart(s);
    forall k | 0 <= k < |t| ensures TermOrSpace(t[k]) {
      assert t[k] == s[|s| - |t| + k];
    }
  }

  /** The first word of `t` and what follows it keep the characters of `t`. */
  lemma FirstWordKeepsChars(t: string)
    requires AllTermOrSpace(t)
    ensures AllTermOrSpace(TakeWord(t))
    ensures AllTermOrSpace(t[|TakeWord(t)|..])
  {
    var w := TakeWord(t);
    forall k | 0 <= k < |w| ensures TermOrSpace(w[k]) {
      assert w[k] == t[k];
    }
    var rest := t[|w|..];
    forall k | 0 <= k < |rest| ensures TermOrSpace(rest[k]) {
      assert rest[k] == t[|w| + k];
    }
  }

  lemma ConsKeepsChars(w: string, tail: seq<string>)
    requires AllTermOrSpace(w)
    requires forall k :: 0 <= k < |tail| ==> AllTermOrSpace(tail[k])
    ensures forall k :: 0 <= k < |[w] + tail| ==> AllTermOrSpace(([w] + tail)[k])
  {
    forall k | 0 <= k < |[w] + tail| ensures AllTermOrSpace(([w] + tail)[k]) {
      if k > 0 {
        assert ([w] + tail)[k] == tail[k - 1];
      }
    }
  }

  lemma {:induction false} WordsKeepChars(s: string)
    requires AllTermOrSpace(s)
    ensures forall k :: 0 <= k < |Words(s)| ==> AllTermOrSpace(Words(s)[k])
    decreases |s|
  {
    var t := TrimStart(s);
    if t != [] {
      var w := TakeWord(t);
      var rest := t[|w|..];
      TrimKeepsChars(s);
      FirstWordKeepsChars(t);
      WordsKeepChars(rest);
      ConsKeepsChars(w, Words(rest));
      assert Words(s) == [w] + Words(rest);
    }
  }

  lemma {:induction false} JoinKeepsChars(ws: seq<string>)
    requires forall k :: 0 <= k < |ws| ==> AllTermOrSpace(ws[k])
    ensures AllTermOrSpace(JoinWith(ws, " "))
    decreases |ws|
  {
    if |ws| > 1 {
      JoinKeepsChars(ws[1..]);
      var j := JoinWith(ws[1..], " ");
      var r := ws[0] + " " + j;
      forall i | 0 <= i < |r| ensures TermOrSpace(r[i]) {
        if i < |ws[0]| {
          assert r[i] == ws[0][i];
        } else if i > |ws[0]| {
          assert r[i] == j[i - |ws[0]| - 1];
        }
      }
    }
  }

  /** Lowering, accent removal and the substitution leave a normalised
      phrase unchanged. */
  lemma CleanTermText(p: string)
    requires AllTermOrSpace(p)
    ensures CleanText(StripAccents(Lower(p))) == p
  {
    assert Lower(p) == p;
    assert IsAscii(p);
  }

  /** The normalised phrase consists of a-z, 0-9, backslashes and single
      spaces; splitting it gives the surviving tokens back, none of which
      is a stop word. */
  lemma PhraseShape(term: string, vocab: Vocabulary)
    ensures AllTermOrSpace(Phrase(term, vocab))
    ensures Words(Phrase(term, vocab)) == Tokens(term, vocab)
    ensures forall k :: 0 <= k < |Tokens(term, vocab)| ==> Tokens(term, vocab)[k] !in vocab.stopWords
  {
    var cleaned := CleanText(StripAccents(Lower(term)));
    assert AllTermOrSpace(cleaned);
    var ws := Words(cleaned);
    WordsKeepChars(cleaned);
    var tokens := Tokens(term, vocab);
    assert forall k :: 0 <= k < |tokens| ==> tokens[k] in ws;
    assert forall k :: 0 <= k < |tokens| ==> AllTermOrSpace(tokens[k]) && IsWord(tokens[k]) by {
      forall k | 0 <= k < |tokens| ensures AllTermOrSpace(tokens[k]) && IsWord(tokens[k]) {
        var w := tokens[k];
        var j :| 0 <= j < |ws| && ws[j] == w;
      }
    }
    JoinKeepsChars(tokens);
    WordsOfJoin(tokens);
  }

  lemma {:induction false} WithoutStopWordsNone(ws: seq<string>, stop: set<string>)
    requires forall k :: 0 <= k < |ws| ==> ws[k] !in stop
    ensures WithoutStopWords(ws, stop) == ws
    decreases |ws|
  {
    if ws != [] {
      WithoutStopWordsNone(ws[1..], stop);
      assert ws == [ws[0]] + ws[1..];
    }
  }

  /** Normalising a phrase that is no alias key a second time changes nothing. */
  lemma NormalizeIdempotent(term: string, vocab: Vocabulary)
    requires Tokens(term, vocab) != [] && Phrase(term, vocab) !in vocab.aliases
    ensures NormalizeServiceTerm(Some(term), vocab) == Some(Phrase(term, vocab))
    ensures NormalizeServiceTerm(NormalizeServiceTerm(Some(term), vocab), vocab) ==
            NormalizeServiceTerm(Some(term), vocab)
  {
    var p := Phrase(term, vocab);
    PhraseShape(term, vocab);
    CleanTermText(p);
    assert Words(CleanText(StripAccents(Lower(p)))) == Tokens(term, vocab);
    WithoutStopWordsNone(Tokens(term, vocab), vocab.stopWords);
    assert Tokens(p, vocab) == Tokens(term, vocab);
  }

  // -------------------------------------------------------------------
  // _trim_fields and the compaction helpers
  // -------------------------------------------------------------------

  /** `key in item and item[key] not in (None, "", [])`. */
  predicate Kept(item: Dict, k: string) {
    HasKey(item, k) && !IsAbsent(Get(item, k).value)
  }

  predicate NoDuplicates(ks: seq<string>) {
    forall i, j :: 0 <= i < j < |ks| ==> ks[i] != ks[j]
  }

  /** `_trim_fields`: the dictionary comprehension over `allowed_keys`. */
  function TrimFields(item: Dict, allowed: seq<string>): (r: Dict)
    ensures forall k :: Get(r, k) == (if k in allowed && Kept(item, k) then Get(item, k) else None)
    decreases |allowed|
  {
    if allowed == [] then []
    else
      var prefix := allowed[..|allowed| - 1];
      var k := allowed[|allowed| - 1];
      assert allowed == prefix + [k];
      var rest := TrimFields(item, prefix);
      if Kept(item, k) then Put(rest, k, Get(item, k).value) else rest
  }

  /** The allowed keys that are present with a usable value, in allowed order. */
  function KeptKeys(item: Dict, allowed: seq<string>): seq<string>
    decreases |allowed|
  {
    if allowed == [] then []
    else
      KeptKeys(item, allowed[..|allowed| - 1]) +
      (if Kept(item, allowed[|allowed| - 1]) then [allowed[|allowed| - 1]] else [])
  }

  /** The trimmed record lists exactly the kept keys, in allowed order, once each. */
  lemma {:induction false} TrimFieldsKeys(item: Dict, allowed: seq<string>)
    requires NoDuplicates(allowed)
    ensures Keys(TrimFields(item, allowed)) == KeptKeys(item, allowed)
    ensures UniqueKeys(TrimFields(item, allowed))
    decreases |allowed|
  {
    if allowed != [] {
      var prefix := allowed[..|allowed| - 1];
      var k := allowed[|allowed| - 1];
      assert allowed == prefix + [k];
      TrimFieldsKeys(item, prefix);
      var rest := TrimFields(item, prefix);
      if Kept(item, k) {
        assert k !in prefix;
        assert Get(rest, k) == None;
        var r := Put(rest, k, Get(item, k).value);
        assert Keys(r) == Keys(rest) + [k];
        forall i, j | 0 <= i < j < |r| ensures r[i].key != r[j].key {
          assert Keys(r)[i] == r[i].key && Keys(r)[j] == r[j].key;
          if j == |rest| {
            assert Keys(rest)[i] == rest[i].key;
            assert HasKey(rest, rest[i].key);
          }
        }
      }
    }
  }

  /** `str(v)[:n]`. */
  function Truncate(s: string, n: nat): (r: string)
    ensures |r| <= n && IsPrefix(r, s)
    ensures |s| <= n ==> r == s
  {
    s[..Min(n, |s|)]
  }

  const ServiceKeys: seq<string> := ["id", "nome", "categoria", "duracaoEmMinutos"]
  const ProfessionalKeys: seq<string> := ["id", "nome", "apelido", "categoria", "especialidades"]
  const BookingKeys: seq<string> := ["id", "dataHoraInicio", "dataHoraFim", "duracaoEmMinutos", "valor", "status"]
  const ClientKeys: seq<string> := ["id", "nome"]
  const DescriptionLimit: nat := 160

  /** The keys the compaction helpers add on top of a whitelist are not in it. */
  lemma ExtraKeysOutsideWhitelists()
    ensures forall k :: k in ServiceKeys ==> k != "valor" && k != "descricao" && k != "preco"
    ensures forall k :: k in BookingKeys ==> k != "servico" && k != "profissional" && k != "cliente"
  {
  }

  /** `_compact_service`: the whitelisted fields, `valor` (falling back to
      `preco`) only on request, and the description as text cut to 160
      characters. */
  function CompactService(item: Dict, includeValor: bool): (r: Dict)
    ensures forall k :: k in ServiceKeys ==> Get(r, k) == (if Kept(item, k) then Get(item, k) else None)
    ensures Get(r, "valor") ==
              (if !includeValor then None
               else if Kept(item, "valor") then Get(item, "valor")
               else Get(item, "preco"))
    ensures Get(r, "descricao") ==
              (if HasKey(item, "descricao")
               then Some(VStr(Truncate(Str(Get(item, "descricao").value), DescriptionLimit)))
               else None)
    ensures forall k :: k !in ServiceKeys && k != "valor" && k != "descricao" ==> Get(r, k) == None
  {
    var priced := PricedService(item, includeValor);
    if HasKey(item, "descricao")
    then Put(priced, "descricao", VStr(Truncate(Str(Get(item, "descricao").value), DescriptionLimit)))
    else priced
  }

  /** `_compact_service` before the description is added. */
  function PricedService(item: Dict, includeValor: bool): (r: Dict)
    ensures forall k :: k in ServiceKeys ==> Get(r, k) == (if Kept(item, k) then Get(item, k) else None)
    ensures Get(r, "valor") ==
              (if !includeValor then None
               else if Kept(item, "valor") then Get(item, "valor")
               else Get(item, "preco"))
    ensures forall k :: k !in ServiceKeys && k != "valor" ==> Get(r, k) == None
    ensures forall k :: k in ServiceKeys ==> k != "descricao"
  {
    ExtraKeysOutsideWhitelists();
    var keys := if includeValor then ServiceKeys + ["valor"] else ServiceKeys;
    var trimmed := TrimFields(item, keys);
    if includeValor && !HasKey(trimmed, "valor") && HasKey(item, "preco")
    then Put(trimmed, "valor", GetOrNone(item, "preco"))
    else trimmed
  }

  /** `_compact_professional`. */
  function CompactProfessional(item: Dict): (r: Dict)
    ensures forall k :: Get(r, k) == (if k in ProfessionalKeys && Kept(item, k) then Get(item, k) else None)
  {
    TrimFields(item, ProfessionalKeys)
  }

  /** The nested record under `k`, when it is a dictionary. */
  function NestedDict(item: Dict, k: string): Option<Dict> {
    match GetOrNone(item, k)
    case VDict(e) => Some(e)
    case _ => None
  }

  /** `item["servico"]`, compacted, when it is a dictionary. */
  function NestedService(item: Dict): Option<Value> {
    match NestedDict(item, "servico")
    case None => None
    case Some(e) => Some(VDict(CompactService(e, false)))
  }

  /** `item["profissional"]`, compacted, when it is a dictionary. */
  function NestedProfessional(item: Dict): Option<Value> {
    match NestedDict(item, "profissional")
    case None => None
    case Some(e) => Some(VDict(CompactProfessional(e)))
  }

  /** `item["cliente"]`, trimmed to its identifier and name, when it is a dictionary. */
  function NestedClient(item: Dict): Option<Value> {
    match NestedDict(item, "cliente")
    case None => None
    case Some(e) => Some(VDict(TrimFields(e, ClientKeys)))
  }

  /** `if nested: acc[k] = nested`. */
  function PutIfSome(acc: Dict, k: string, nested: Option<Value>): (r: Dict)
    ensures Get(r, k) == (if nested.Some? then nested else Get(acc, k))
    ensures forall k' :: k' != k ==> Get(r, k') == Get(acc, k')
  {
    if nested.Some? then Put(acc, k, nested.value) else acc
  }

  /** The three nested records `_compact_agendamento` adds to the trimmed
      booking, each only when present. */
  function AttachNested(base: Dict, service: Option<Value>, professional: Option<Value>,
                        client: Option<Value>): (r: Dict)
    ensures Get(r, "servico") == (if service.Some? then service else Get(base, "servico"))
    ensures Get(r, "profissional") == (if professional.Some? then professional else Get(base, "profissional"))
    ensures Get(r, "cliente") == (if client.Some? then client else Get(base, "cliente"))
    ensures forall k :: k != "servico" && k != "profissional" && k != "cliente" ==> Get(r, k) == Get(base, k)
  {
    assert "servico" != "cliente" && "profissional" != "cliente";
    PutIfSome(AttachTwo(base, service, professional), "cliente", client)
  }

  function AttachTwo(base: Dict, service: Option<Value>, professional: Option<Value>): (r: Dict)
    ensures Get(r, "servico") == (if service.Some? then service else Get(base, "servico"))
    ensures Get(r, "profissional") == (if professional.Some? then professional else Get(base, "profissional"))
    ensures forall k :: k != "servico" && k != "profissional" ==> Get(r, k) == Get(base, k)
  {
    assert "servico" != "profissional";
    PutIfSome(PutIfSome(base, "servico", service), "profissional", professional)
  }

  /** `_compact_agendamento`: the whitelisted booking fields, plus the nested
      service, professional and client, each compacted, when they are dictionaries. */
  function CompactBooking(item: Dict): (r: Dict)
    ensures forall k :: k in BookingKeys ==> Get(r, k) == (if Kept(item, k) then Get(item, k) else None)
    ensures Get(r, "servico") == NestedService(item)
    ensures Get(r, "profissional") == NestedProfessional(item)
    ensures Get(r, "cliente") == NestedClient(item)
    ensures forall k :: k !in BookingKeys && k != "servico" && k != "profissional" && k != "cliente" ==>
                        Get(r, k) == None
  {
    ExtraKeysOutsideWhitelists();
    AttachNested(TrimFields(item, BookingKeys), NestedService(item), NestedProfessional(item), NestedClient(item))
  }

  const MetaKeys: seq<string> := ["page", "pageSize", "total", "message"]

  /** The `for meta_key in (...)` loop: copy each listed key present in `src`. */
  function CopyKeys(acc: Dict, src: Dict, keys: seq<string>): (r: Dict)
    ensures forall k :: Get(r, k) == (if k in keys && HasKey(src, k) then Get(src, k) else Get(acc, k))
    decreases |keys|
  {
    if keys == [] then acc
    else
      var prefix := keys[..|keys| - 1];
      var k := keys[|keys| - 1];
      assert keys == prefix + [k];
      var r := CopyKeys(acc, src, prefix);
      if HasKey(src, k) then Put(r, k, Get(src, k).value) else r
  }

  /** What `_compact_response` stores under `data`. */
  function MapData(data: Value, mapper: Value -> Value): Value {
    match data
    case VList(items) => VList(seq(|items|, i requires 0 <= i < |items| => mapper(items[i])))
    case VDict(_) => mapper(data)
    case _ => data
  }

  /** What `_compact_response` answers: non-dictionary and error responses
      unchanged, otherwise the mapped `data` and the meta keys present. */
  function Compacted(response: Value, mapper: Value -> Value): (r: Value)
    ensures !response.VDict? ==> r == response
    ensures response.VDict? && Truthy(GetOrNone(response.entries, "error")) ==> r == response
    ensures response.VDict? && !Truthy(GetOrNone(response.entries, "error")) ==>
              r.VDict?
              && Get(r.entries, "data") == Some(MapData(GetOrNone(response.entries, "data"), mapper))
              && (forall k :: k in MetaKeys ==> Get(r.entries, k) == Get(response.entries, k))
              && (forall k :: k !in MetaKeys && k != "data" ==> Get(r.entries, k) == None)
  {
    match response
    case VDict(entries) =>
      if Truthy(GetOrNone(entries, "error")) then response
      else VDict(WithMeta(MapData(GetOrNone(entries, "data"), mapper), entries))
    case _ => response
  }

  /** The compacted dictionary: `data` first, then the meta keys present in `src`. */
  function WithMeta(data: Value, src: Dict): (r: Dict)
    ensures Get(r, "data") == Some(data)
    ensures forall k :: k in MetaKeys ==> Get(r, k) == Get(src, k)
    ensures forall k :: k !in MetaKeys && k != "data" ==> Get(r, k) == None
  {
    assert forall k :: k in MetaKeys ==> k != "data";
    assert Get([Entry("data", data)], "data") == Some(data) by {
      assert [Entry("data", data)][0].key == "data";
    }
    CopyKeys([Entry("data", data)], src, MetaKeys)
  }

  /** `_compact_response`, building the result one key at a time. */
  method CompactResponse(response: Value, mapper: Value -> Value) returns (r: Value)
    ensures r == Compacted(response, mapper)
  {
    if !response.VDict? {
      return response;
    }
    var entries := response.entries;
    if Truthy(GetOrNone(entries, "error")) {
      return response;
    }
    var compacted: Dict := [];
    var data := GetOrNone(entries, "data");
    var mapped := MapData(data, mapper);
    compacted := Put(compacted, "data", mapped);
    assert compacted == [Entry("data", mapped)];
    for i := 0 to |MetaKeys|
      invariant compacted == CopyKeys([Entry("data", mapped)], entries, MetaKeys[..i])
    {
      CopyKeysStep([Entry("data", mapped)], entries, MetaKeys, i);
      var k := MetaKeys[i];
      if HasKey(entries, k) {
        compacted := Put(compacted, k, Get(entries, k).value);
      }
    }
    assert MetaKeys[..|MetaKeys|] == MetaKeys;
    r := VDict(compacted);
  }

  /** One more key of the list is one more conditional copy. */
  lemma CopyKeysStep(acc: Dict, src: Dict, keys: seq<string>, i: nat)
    requires i < |keys|
    ensures CopyKeys(acc, src, keys[..i + 1]) ==
              if HasKey(src, keys[i]) then Put(CopyKeys(acc, src, keys[..i]), keys[i], Get(src, keys[i]).value)
              else CopyKeys(acc, src, keys[..i])
  {
    var prefix := keys[..i + 1];
    assert prefix[..|prefix| - 1] == keys[..i];
    assert prefix[|prefix| - 1] == keys[i];
  }

  /** A list under `data` is mapped element by element, keeping length and order. */
  lemma CompactedMapsList(response: Dict, mapper: Value -> Value, items: seq<Value>)
    requires !Truthy(GetOrNone(response, "error"))
    requires GetOrNone(response, "data") == VList(items)
    ensures var r := Compacted(VDict(response), mapper);
            r.VDict? && Get(r.entries, "data").Some? && Get(r.entries, "data").value.VList?
            && |Get(r.entries, "data").value.items| == |items|
            && forall i :: 0 <= i < |items| ==> Get(r.entries, "data").value.items[i] == mapper(items[i])
  {
  }
}
