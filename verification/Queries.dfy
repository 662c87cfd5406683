/** The query splitter of src/linear_fcgi_queries.cc. */
module Queries {
  import opened Bytes
  import opened Options

  const AMP: Byte := 0x26
  const EQUALS: Byte := 0x3D

  const SESSION_ID: Bytes := [0x73, 0x69, 0x64]
  const CHANNEL: Bytes := [0x63, 0x68]
  const COMMAND: Bytes := [0x63]
  const DATA: Bytes := [0x64, 0x61, 0x74, 0x61]
  const CALLBACK: Bytes := [0x66]

  // ---------- words and pairs ----------

  /** std::string::find, with the length for npos. */
  function Find(s: Bytes, b: Byte): (i: nat)
    ensures i <= |s| && b !in s[..i] && (i < |s| ==> s[i] == b)
  {
    if s == [] then 0
    else if s[0] == b then 0
    else
      var i := Find(s[1..], b) + 1;
      assert s[..i] == [s[0]] + s[1..][..i - 1];
      i
  }

  /** What getline with the delimiter '&' yields: no word after a last '&', and none for no input. */
  function Split(s: Bytes): seq<Bytes> {
    if s == [] then []
    else
      var i := Find(s, AMP);
      [s[..i]] + if i == |s| then [] else Split(s[i + 1..])
  }

  /** Words, each closed by a '&'. */
  function Joined(words: seq<Bytes>): Bytes {
    if words == [] then [] else words[0] + [AMP] + Joined(words[1..])
  }

  /** A word is a pair if it has a '='; the first one separates key and value. */
  function KeyOf(word: Bytes): Option<Bytes> {
    var pos := Find(word, EQUALS);
    if pos == |word| then None else Some(word[..pos])
  }

  function ValueOf(word: Bytes): Bytes
    requires KeyOf(word).Some?
  {
    word[Find(word, EQUALS) + 1..]
  }

  /** std::map::insert keeps the value that is there. */
  function Insert(m: map<Bytes, Bytes>, word: Bytes): map<Bytes, Bytes> {
    if KeyOf(word).None? || KeyOf(word).value in m then m
    else m[KeyOf(word).value := ValueOf(word)]
  }

  function InsertAll(m: map<Bytes, Bytes>, words: seq<Bytes>): map<Bytes, Bytes>
    decreases |words|
  {
    if words == [] then m else InsertAll(Insert(m, words[0]), words[1..])
  }

  /** The value of the first word with this key. */
  function FirstValue(words: seq<Bytes>, key: Bytes): Option<Bytes> {
    if words == [] then None
    else if KeyOf(words[0]) == Some(key) then Some(ValueOf(words[0]))
    else FirstValue(words[1..], key)
  }

  /** The map answers every key with its first value, and has no other keys. */
  lemma {:induction false} FirstWins(m: map<Bytes, Bytes>, words: seq<Bytes>, key: Bytes)
    ensures key in InsertAll(m, words) <==> key in m || FirstValue(words, key).Some?
    ensures key in m ==> InsertAll(m, words)[key] == m[key]
    ensures key !in m && FirstValue(words, key).Some? ==>
              key in InsertAll(m, words) && InsertAll(m, words)[key] == FirstValue(words, key).value
    decreases |words|
  {
    if words != [] {
      FirstWins(Insert(m, words[0]), words[1..], key);
    }
  }

  /** Splitting gives back the words that were joined, and goes on with the rest. */
  lemma {:induction false} SplitJoined(words: seq<Bytes>, rest: Bytes)
    requires forall w :: w in words ==> AMP !in w
    ensures Split(Joined(words) + rest) == words + Split(rest)
  {
    if words == [] {
      assert Joined(words) + rest == rest;
      assert words + Split(rest) == Split(rest);
    } else {
      var w, others := words[0], words[1..];
      assert words == [w] + others;
      SplitJoined(others, rest);
      SplitFirst(w, Joined(others) + rest);
      ConcatFirst(w, others, rest);
      ConcatAssoc(w, others, Split(rest));
    }
  }

  lemma ConcatAssoc(w: Bytes, a: seq<Bytes>, b: seq<Bytes>)
    ensures [w] + (a + b) == ([w] + a) + b
  {
  }

  lemma ConcatFirst(w: Bytes, words: seq<Bytes>, rest: Bytes)
    ensures Joined([w] + words) + rest == w + [AMP] + (Joined(words) + rest)
  {
    assert ([w] + words)[1..] == words;
  }

  lemma SplitFirst(w: Bytes, tail: Bytes)
    requires AMP !in w
    ensures Split(w + [AMP] + tail) == [w] + Split(tail)
  {
    var s := w + [AMP] + tail;
    FindAfter(w, AMP, tail);
    assert s[..|w|] == w && s[|w| + 1..] == tail;
  }

  lemma {:induction false} FindAfter(w: Bytes, b: Byte, rest: Bytes)
    requires b !in w
    ensures Find(w + [b] + rest, b) == |w|
  {
    if w != [] {
      assert (w + [b] + rest)[1..] == w[1..] + [b] + rest;
      FindAfter(w[1..], b, rest);
    }
  }

  lemma FindNone(w: Bytes, b: Byte)
    requires b !in w
    ensures Find(w, b) == |w|
  {
  }

  /** A word is a pair if it has a '='; the first one ends the key, and the value may have more of them. */
  lemma PairSplits(key: Bytes, value: Bytes)
    requires 0x3D !in key
    ensures KeyOf(key + [0x3D] + value) == Some(key) && ValueOf(key + [0x3D] + value) == value
    ensures KeyOf(key) == None
  {
    FindAfter(key, EQUALS, value);
    FindNone(key, EQUALS);
    assert (key + [EQUALS] + value)[..|key|] == key && (key + [EQUALS] + value)[|key| + 1..] == value;
  }

  /** A pair that comes first gives its key this value, whatever follows. */
  lemma FirstPairWins(key: Bytes, value: Bytes, rest: Bytes)
    requires 0x3D !in key && 0x26 !in key && 0x26 !in value
    ensures Getter(key + [0x3D] + value + [0x26] + rest, key) == value
  {
    var word := key + [EQUALS] + value;
    assert word + [AMP] + rest == key + [0x3D] + value + [0x26] + rest;
    PairSplits(key, value);
    SplitFirst(word, rest);
    GetterIsFirst(word + [AMP] + rest, key);
  }

  /** A string without '&' is one word, if it is not empty. */
  lemma SplitOne(w: Bytes)
    requires 0x26 !in w
    ensures Split(w) == if w == [] then [] else [w]
  {
    FindNone(w, AMP);
    assert w[..|w|] == w;
  }

  // ---------- the class ----------

  class Queries {
    var queries: map<Bytes, Bytes>

    /** Parses the query string. */
    constructor (data: Bytes)
      ensures queries == InsertAll(map[], Split(data))
    {
      queries := map[];
      new;
      Parse(data);
    }

    /** The loop over getline: `stream` is what is still unread. */
    method SplitWords(data: Bytes) returns (result: seq<Bytes>)
      ensures result == Split(data)
    {
      var stream := data;
      result := [];
      while stream != []
        invariant result + Split(stream) == Split(data)
        decreases |stream|
      {
        var i := Find(stream, AMP);
        var tmp := stream[..i];
        result := result + [tmp];
        stream := if i == |stream| then [] else stream[i + 1..];
      }
    }

    method Parse(data: Bytes)
      modifies this
      ensures queries == InsertAll(old(queries), Split(data))
    {
      var words := SplitWords(data);
      for n := 0 to |words|
        invariant InsertAll(queries, words[n..]) == InsertAll(old(queries), words)
      {
        var word := words[n];
        assert words[n..][0] == word && words[n..][1..] == words[n + 1..];
        var pos := Find(word, EQUALS);
        if pos != |word| {
          var key, val := word[..pos], word[pos + 1..];
          if key !in queries {
            queries := queries[key := val];
          }
        }
      }
    }

    /** The getters: the value found under the key, or the empty string. */
    method Get(key: Bytes) returns (value: Bytes)
      ensures value == if key in queries then queries[key] else []
    {
      if key in queries {
        return queries[key];
      }
      return [];
    }
  }

  /** getData and its siblings on a fresh query string. */
  function Getter(data: Bytes, key: Bytes): Bytes {
    var m := InsertAll(map[], Split(data));
    if key in m then m[key] else []
  }

  /** A getter returns the value of the first pair with its key, or the empty string. */
  lemma GetterIsFirst(data: Bytes, key: Bytes)
    ensures Getter(data, key) == (if FirstValue(Split(data), key).Some? then FirstValue(Split(data), key).value else [])
  {
    FirstWins(map[], Split(data), key);
  }
}
