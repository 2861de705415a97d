/** `StatsHistoryGraph.objectToQueryString`: a params object rendered as
    `?k1=v1&k2=v2…`, keys in `Object.keys` order, with no escaping at all. */
module QueryString {
  import opened Common
  import opened Text

  /** One own property of the params object; a sequence of them lists the keys in `Object.keys` order. */
  datatype Param = Param(key: string, value: string)

  /** `k + "=" + params[k]` */
  function PairText(p: Param): string
  {
    p.key + "=" + p.value
  }

  function PairTexts(ps: seq<Param>): (texts: seq<string>)
    ensures |texts| == |ps|
    ensures forall i :: 0 <= i < |ps| ==> texts[i] == PairText(ps[i])
  {
    if ps == [] then [] else [PairText(ps[0])] + PairTexts(ps[1..])
  }

  /** `objectToQueryString(params)`; `None` is a `null` argument. */
  function ObjectToQueryString(params: Option<seq<Param>>): (q: string)
    ensures q == "" <==> params.None? || params.value == []
    ensures q != "" ==> q[0] == '?'
  {
    if params.None? || params.value == [] then "" else "?" + Join(PairTexts(params.value), '&')
  }

  // ---------------------------------------------------------------------------
  // Reading a query string back

  /** Splits one `k=v` piece at its first `=`. */
  function ParsePair(piece: string): Param
  {
    if piece == [] then Param("", "")
    else if piece[0] == '=' then Param("", piece[1..])
    else
      var rest := ParsePair(piece[1..]);
      Param([piece[0]] + rest.key, rest.value)
  }

  function ParsePairs(pieces: seq<string>): (ps: seq<Param>)
    ensures |ps| == |pieces|
    ensures forall i :: 0 <= i < |pieces| ==> ps[i] == ParsePair(pieces[i])
  {
    if pieces == [] then [] else [ParsePair(pieces[0])] + ParsePairs(pieces[1..])
  }

  /** The params a query string denotes; `None` when it is neither empty nor starts with `?`. */
  function ParseQueryString(q: string): Option<seq<Param>>
  {
    if q == "" then Some([])
    else if q[0] != '?' then None
    else Some(ParsePairs(Split(q[1..], '&')))
  }

  /** Keys and values that survive the unescaped rendering unambiguously. */
  predicate Unambiguous(ps: seq<Param>)
  {
    forall i :: 0 <= i < |ps| ==> '&' !in ps[i].key && '=' !in ps[i].key && '&' !in ps[i].value
  }

  lemma {:induction false} ParsePairInverts(p: Param)
    requires '=' !in p.key
    ensures ParsePair(PairText(p)) == p
    decreases |p.key|
  {
    var t := PairText(p);
    if p.key == [] {
      assert t == "=" + p.value;
      assert t[1..] == p.value;
    } else {
      var rest := Param(p.key[1..], p.value);
      assert t[0] == p.key[0];
      assert t[1..] == PairText(rest);
      ParsePairInverts(rest);
      assert [p.key[0]] + p.key[1..] == p.key;
    }
  }

  /** Round trip: with no `&` in keys or values and no `=` in keys, the query
      string determines the params, in order; no params give "", which reads back as none. */
  lemma QueryStringRoundTrip(ps: seq<Param>)
    requires Unambiguous(ps)
    ensures ParseQueryString(ObjectToQueryString(Some(ps))) == Some(ps)
  {
    if ps == [] {
      return;
    }
    var texts := PairTexts(ps);
    assert FreeOf(texts, '&') by {
      forall i | 0 <= i < |texts| ensures '&' !in texts[i] {
        assert texts[i] == ps[i].key + "=" + ps[i].value;
      }
    }
    SplitJoin(texts, '&');
    var q := ObjectToQueryString(Some(ps));
    assert q[1..] == Join(texts, '&');
    var parsed := ParsePairs(texts);
    forall i | 0 <= i < |ps| ensures parsed[i] == ps[i] {
      ParsePairInverts(ps[i]);
    }
    assert parsed == ps;
    assert Split(q[1..], '&') == texts;
  }

  /** n unambiguous pairs are joined by exactly n-1 ampersands. */
  lemma AmpersandCount(ps: seq<Param>)
    requires ps != [] && Unambiguous(ps)
    ensures Occurrences(ObjectToQueryString(Some(ps)), '&') == |ps| - 1
  {
    var texts := PairTexts(ps);
    assert FreeOf(texts, '&') by {
      forall i | 0 <= i < |texts| ensures '&' !in texts[i] {
        assert texts[i] == ps[i].key + "=" + ps[i].value;
      }
    }
    JoinSeparatorCount(texts, '&');
    OccurrencesAppend("?", Join(texts, '&'), '&');
    assert Occurrences("?", '&') == 0;
  }

  lemma QueryStringExample()
    ensures ObjectToQueryString(Some([Param("key1", "value1"), Param("key2", "value2")])) == "?key1=value1&key2=value2"
  {
    var ps := [Param("key1", "value1"), Param("key2", "value2")];
    var texts := PairTexts(ps);
    var a := "key1" + "=" + "value1";
    var b := "key2" + "=" + "value2";
    assert texts == [a, b];
    JoinTwo(texts, '&');
    QueryTextExample(a, b);
  }

  lemma QueryTextExample(a: string, b: string)
    requires a == "key1" + "=" + "value1" && b == "key2" + "=" + "value2"
    ensures "?" + (a + "&" + b) == "?key1=value1&key2=value2"
  {
    assert a == "key1=value1";
    assert b == "key2=value2";
  }

  lemma QueryStringEmptyExamples()
    ensures ObjectToQueryString(Some([])) == ""
    ensures ObjectToQueryString(None) == ""
  {
  }

  /** Two parts are joined by one separator. */
  lemma JoinTwo(parts: seq<string>, sep: char)
    requires |parts| == 2
    ensures Join(parts, sep) == parts[0] + [sep] + parts[1]
  {
    assert parts[1..] == [parts[1]];
  }
}
