/**
 * Naming helpers and the JSON response builder of utils.py.
 *
 * `CamelToSnake` turns `updateTime` into `update_time`; `SnakeToCamel` turns
 * `update_time` back into `updateTime`. Both are pure string transforms.
 */
module Utils {
  import opened PyText
  import opened PyValues

  // ------------------------------------------------------ camel_to_snake

  /** One element of the comprehension: `"_" + c.lower() if c.isupper() else c`. */
  function SnakePiece(c: char): string {
    if IsUpper(c) then ['_', Lower(c)] else [c]
  }

  /** `"".join(SnakePiece(c) for c in s)`. */
  function SnakeChars(s: string): string {
    if s == [] then [] else SnakePiece(s[0]) + SnakeChars(s[1..])
  }

  /** `s.lstrip(c)`: `s` without its leading run of `c`. */
  function LStrip(s: string, c: char): (r: string)
    ensures r == [] || r[0] != c
  {
    if s != [] && s[0] == c then LStrip(s[1..], c) else s
  }

  /** What `lstrip` leaves is a suffix of its input, and everything it removed was `c`. */
  lemma {:induction false} LStripSuffix(s: string, c: char)
    ensures |LStrip(s, c)| <= |s| && LStrip(s, c) == s[|s| - |LStrip(s, c)|..]
    ensures forall i :: 0 <= i < |s| - |LStrip(s, c)| ==> s[i] == c
  {
    if s != [] && s[0] == c {
      LStripSuffix(s[1..], c);
      assert s[1..][|s[1..]| - |LStrip(s[1..], c)|..] == s[|s| - |LStrip(s, c)|..];
      forall i | 0 <= i < |s| - |LStrip(s, c)|
        ensures s[i] == c
      {
        if i > 0 {
          assert s[i] == s[1..][i - 1];
        }
      }
    }
  }

  function CamelToSnake(s: string): string {
    LStrip(SnakeChars(s), '_')
  }

  lemma {:induction false} SnakeCharsNoUpper(s: string)
    ensures NoUpper(SnakeChars(s))
  {
    if s != [] {
      SnakeCharsNoUpper(s[1..]);
    }
  }

  lemma {:induction false} SnakeCharsOfNoUpper(s: string)
    requires NoUpper(s)
    ensures SnakeChars(s) == s
  {
    if s != [] {
      SnakeCharsOfNoUpper(s[1..]);
    }
  }

  lemma {:induction false} SnakeCharsAppend(a: string, b: string)
    ensures SnakeChars(a + b) == SnakeChars(a) + SnakeChars(b)
  {
    if a != [] {
      assert (a + b)[0] == a[0] && (a + b)[1..] == a[1..] + b;
      SnakeCharsAppend(a[1..], b);
    } else {
      assert a + b == b;
    }
  }

  /** One capital after a lower-case head becomes `_` and its lower-case letter: `createTime` gives `create_time`. */
  lemma CamelToSnakeOneHump(head: string, c: char, tail: string)
    requires NoUpper(head) && head != [] && head[0] != '_'
    requires IsUpper(c) && NoUpper(tail)
    ensures CamelToSnake(head + [c] + tail) == head + ['_', Lower(c)] + tail
  {
    var r := head + ['_', Lower(c)] + tail;
    assert SnakeChars(head + [c] + tail) == r by {
      assert head + [c] + tail == head + ([c] + tail);
      SnakeCharsAppend(head, [c] + tail);
      SnakeCharsAppend([c], tail);
      SnakeCharsOfNoUpper(head);
      SnakeCharsOfNoUpper(tail);
      assert SnakeChars([c]) == ['_', Lower(c)] by {
        assert [c][1..] == [];
      }
    }
    assert LStrip(r, '_') == r by {
      assert r[0] == head[0];
    }
  }

  /** The documented example: `updateTime` becomes `update_time`. */
  lemma CamelToSnakeExample()
    ensures CamelToSnake("updateTime") == "update_time"
  {
    CamelToSnakeOneHump("update", 'T', "ime");
    assert "update" + ['T'] + "ime" == "updateTime";
    assert "update" + ['_', Lower('T')] + "ime" == "update_time";
  }

  /** The result has no upper-case ASCII letter and never starts with `_`. */
  lemma CamelToSnakeShape(s: string)
    ensures NoUpper(CamelToSnake(s))
    ensures CamelToSnake(s) == [] || CamelToSnake(s)[0] != '_'
  {
    SnakeCharsNoUpper(s);
    LStripSuffix(SnakeChars(s), '_');
  }

  /** `lstrip` also removes underscores that were already at the front of the input. */
  lemma CamelToSnakeDropsLeadingUnderscore(s: string)
    ensures CamelToSnake("_" + s) == CamelToSnake(s)
  {
    var x := SnakeChars(s);
    assert SnakeChars("_" + s) == "_" + x by {
      assert ("_" + s)[0] == '_' && ("_" + s)[1..] == s;
      assert SnakePiece('_') == "_";
    }
    assert ("_" + x)[0] == '_' && ("_" + x)[1..] == x;
  }

  /** A string that is already snake case is a fixed point. */
  lemma CamelToSnakeOfSnake(t: string)
    requires NoUpper(t)
    requires t == [] || t[0] != '_'
    ensures CamelToSnake(t) == t
  {
    SnakeCharsOfNoUpper(t);
  }

  lemma CamelToSnakeIdempotent(s: string)
    ensures CamelToSnake(CamelToSnake(s)) == CamelToSnake(s)
  {
    CamelToSnakeShape(s);
    CamelToSnakeOfSnake(CamelToSnake(s));
  }

  // ------------------------------------------------------ snake_to_camel

  /** `s.split("_")`. */
  function Split(s: string): (words: seq<string>)
    ensures |words| >= 1
    ensures forall i :: 0 <= i < |words| ==> '_' !in words[i]
  {
    if s == [] then [""]
    else if s[0] == '_' then [""] + Split(s[1..])
    else
      var rest := Split(s[1..]);
      [[s[0]] + rest[0]] + rest[1..]
  }

  /** Splitting on `_` and joining with `_` gives back the input. */
  lemma {:induction false} SplitJoin(s: string)
    ensures JoinWith(Split(s), "_") == s
  {
    if s != [] {
      SplitJoin(s[1..]);
      var rest := Split(s[1..]);
      if s[0] == '_' {
        assert ([""] + rest)[1..] == rest;
      } else {
        assert ([[s[0]] + rest[0]] + rest[1..])[1..] == rest[1..];
      }
    }
  }

  /** `w.capitalize()`: first character upper case, the rest lower case. */
  function Capitalize(w: string): string {
    if w == [] then [] else [Upper(w[0])] + LowerAll(w[1..])
  }

  /** `"".join(w.capitalize() for w in words)`. */
  function CapitalizeAll(words: seq<string>): string {
    if words == [] then [] else Capitalize(words[0]) + CapitalizeAll(words[1..])
  }

  function SnakeToCamel(s: string): string {
    var words := Split(s);
    words[0] + CapitalizeAll(words[1..])
  }

  /** Where a character-by-character reading of a snake-case string stands. */
  datatype CamelState = InHead | AtWordStart | InWord

  /**
   * A reference reading of `SnakeToCamel`, one character at a time: the first
   * segment is copied, every `_` is dropped, the character after a `_` is
   * upper-cased and the rest of that segment is lower-cased.
   */
  function Camelize(s: string, st: CamelState): string {
    if s == [] then []
    else if s[0] == '_' then Camelize(s[1..], AtWordStart)
    else match st
      case InHead => [s[0]] + Camelize(s[1..], InHead)
      case AtWordStart => [Upper(s[0])] + Camelize(s[1..], InWord)
      case InWord => [Lower(s[0])] + Camelize(s[1..], InWord)
  }

  lemma {:induction false} CamelizeSplits(s: string)
    ensures var w := Split(s);
      && Camelize(s, InHead) == w[0] + CapitalizeAll(w[1..])
      && Camelize(s, AtWordStart) == Capitalize(w[0]) + CapitalizeAll(w[1..])
      && Camelize(s, InWord) == LowerAll(w[0]) + CapitalizeAll(w[1..])
  {
    if s != [] {
      CamelizeSplits(s[1..]);
      var rest := Split(s[1..]);
      var tail := CapitalizeAll(rest[1..]);
      var w := Split(s);
      if s[0] == '_' {
        assert w == [""] + rest;
        assert w[0] == "" && w[1..] == rest;
        var after := Camelize(s[1..], AtWordStart);
        assert after == Capitalize(rest[0]) + tail;
        assert CapitalizeAll(rest) == after by {
          assert rest[0] == rest[0] && CapitalizeAll(rest) == Capitalize(rest[0]) + CapitalizeAll(rest[1..]);
        }
        assert Camelize(s, InHead) == after && Camelize(s, AtWordStart) == after && Camelize(s, InWord) == after;
        assert Capitalize("") == "" && LowerAll("") == "";
        assert "" + after == after;
      } else {
        var c := s[0];
        assert w == [[c] + rest[0]] + rest[1..];
        assert w[0] == [c] + rest[0] && w[1..] == rest[1..];
        assert Camelize(s, InHead) == [c] + (rest[0] + tail);
        assert Camelize(s, AtWordStart) == [Upper(c)] + (LowerAll(rest[0]) + tail);
        assert Camelize(s, InWord) == [Lower(c)] + (LowerAll(rest[0]) + tail);
        assert w[0][1..] == rest[0];
        assert Capitalize(w[0]) == [Upper(c)] + LowerAll(rest[0]);
        assert LowerAll(w[0]) == [Lower(c)] + LowerAll(rest[0]);
      }
    }
  }

  /** `SnakeToCamel` agrees with the character-by-character reading. */
  lemma SnakeToCamelIsCamelize(s: string)
    ensures SnakeToCamel(s) == Camelize(s, InHead)
  {
    CamelizeSplits(s);
  }

  lemma {:induction false} CamelizeNoUnderscore(s: string, st: CamelState)
    ensures '_' !in Camelize(s, st)
  {
    if s != [] {
      if s[0] == '_' {
        CamelizeNoUnderscore(s[1..], AtWordStart);
      } else {
        CamelizeNoUnderscore(s[1..], if st == InHead then InHead else InWord);
      }
    }
  }

  lemma {:induction false} CamelizeHeadCopies(s: string)
    requires '_' !in s
    ensures Camelize(s, InHead) == s
  {
    if s != [] {
      CamelizeHeadCopies(s[1..]);
    }
  }

  /** The result never contains `_`, and a string without `_` comes back unchanged. */
  lemma SnakeToCamelShape(s: string)
    ensures '_' !in SnakeToCamel(s)
    ensures '_' !in s ==> SnakeToCamel(s) == s
  {
    SnakeToCamelIsCamelize(s);
    CamelizeNoUnderscore(s, InHead);
    if '_' !in s {
      CamelizeHeadCopies(s);
    }
  }

  /** Everything after the first `_` is the capitalized segments, joined. */
  lemma SnakeToCamelSegments(head: string, rest: string)
    requires '_' !in head
    ensures SnakeToCamel(head + "_" + rest) == head + CapitalizeAll(Split(rest))
  {
    SplitOfSeparated(head, rest);
    assert Split(head + "_" + rest)[1..] == Split(rest);
  }

  /** The last segment comes out capitalized: upper-case first letter, lower-case rest. */
  lemma SnakeToCamelCapitalizesLast(head: string, word: string)
    requires '_' !in head && '_' !in word && word != []
    ensures SnakeToCamel(head + "_" + word) == head + [Upper(word[0])] + LowerAll(word[1..])
  {
    SnakeToCamelSegments(head, word);
    SplitOfPlain(word);
    assert [word][1..] == [];
    assert CapitalizeAll([word]) == Capitalize(word);
  }

  lemma {:induction false} SplitOfPlain(w: string)
    requires '_' !in w
    ensures Split(w) == [w]
  {
    if w != [] {
      SplitOfPlain(w[1..]);
      assert [w[0]] + w[1..] == w;
    }
  }

  lemma {:induction false} SplitOfSeparated(head: string, tail: string)
    requires '_' !in head
    ensures Split(head + "_" + tail) == [head] + Split(tail)
  {
    if head == [] {
      assert ("" + "_" + tail)[1..] == tail;
    } else {
      var s := head + "_" + tail;
      assert s[0] == head[0];
      assert s[1..] == head[1..] + "_" + tail;
      SplitOfSeparated(head[1..], tail);
      assert [head[0]] + head[1..] == head;
    }
  }

  // ---------------------------------------------------------- round trip

  lemma {:induction false} CamelizeSnakeChars(s: string, st: CamelState)
    requires '_' !in s
    requires st != AtWordStart
    ensures Camelize(SnakeChars(s), st) == s
  {
    if s != [] {
      var c := s[0];
      CamelizeSnakeChars(s[1..], st);
      var rest := SnakeChars(s[1..]);
      if IsUpper(c) {
        CamelizeSnakeChars(s[1..], InWord);
        var e := ['_', Lower(c)] + rest;
        assert e[0] == '_' && e[1..] == [Lower(c)] + rest;
        assert ([Lower(c)] + rest)[1..] == rest;
        UpperOfLower(c);
      } else {
        var e := [c] + rest;
        assert e[1..] == rest;
      }
      assert [c] + s[1..] == s;
    }
  }

  /**
   * Round trip: a camel-case name without `_` whose first character is not
   * upper case comes back unchanged from snake case.
   */
  lemma CamelSnakeRoundTrip(s: string)
    requires '_' !in s
    requires s == [] || !IsUpper(s[0])
    ensures SnakeToCamel(CamelToSnake(s)) == s
  {
    if s != [] {
      assert SnakeChars(s)[0] == s[0];
    }
    CamelizeSnakeChars(s, InHead);
    SnakeToCamelIsCamelize(SnakeChars(s));
  }

  // ------------------------------------------------------- json_response

  const ResponseKeys: set<string> := {"code", "msg", "success", "data", "total"}

  /**
   * `json_response(code, msg, success, data, total, **kwargs)`. Python refuses
   * a keyword argument that repeats a named parameter, so `kwargs` never holds
   * one of `ResponseKeys`.
   */
  method JsonResponse(code: Value, msg: Value, success: Value, data: Value, total: Value,
                      kwargs: map<string, Value>)
    returns (r: map<string, Value>)
    requires kwargs.Keys !! ResponseKeys
    ensures "code" in r && r["code"] == code
    ensures "msg" in r && r["msg"] == msg
    ensures "success" in r && r["success"] == success
    ensures ("data" in r) <==> data != Null
    ensures "data" in r ==> r["data"] == data
    ensures ("total" in r) <==> total != Null
    ensures "total" in r ==> r["total"] == total
    ensures forall k :: k in kwargs ==> k in r && r[k] == kwargs[k]
    ensures forall k :: k in r ==> k in ResponseKeys || k in kwargs
  {
    r := map[];
    r := r["code" := code];
    r := r["msg" := msg];
    r := r["success" := success];
    if data != Null {
      r := r["data" := data];
    }
    if total != Null {
      r := r["total" := total];
    }
    var todo := kwargs.Keys;
    while todo != {}
      invariant todo <= kwargs.Keys
      invariant "code" in r && r["code"] == code
      invariant "msg" in r && r["msg"] == msg
      invariant "success" in r && r["success"] == success
      invariant ("data" in r) <==> data != Null
      invariant "data" in r ==> r["data"] == data
      invariant ("total" in r) <==> total != Null
      invariant "total" in r ==> r["total"] == total
      invariant forall k :: k in kwargs && k !in todo ==> k in r && r[k] == kwargs[k]
      invariant forall k :: k in r ==> k in ResponseKeys || (k in kwargs && k !in todo)
      decreases todo
    {
      var k :| k in todo;
      r := r[k := kwargs[k]];
      todo := todo - {k};
    }
  }
}
