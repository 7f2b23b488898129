/**
 * Strings: the two text helpers of the scene-script reader, `remove` (drop a set of
 * characters) and `split` (cut at spaces, dropping empty parts). Each is an imperative
 * method proved against a recursive specification function whose properties are lemmas.
 */
module Strings {

  /** The characters of `s` that are not in `characters`, in their original order. */
  function Removed(s: string, characters: seq<char>): string
  {
    if s == [] then []
    else Removed(s[..|s| - 1], characters) + (if s[|s| - 1] in characters then [] else [s[|s| - 1]])
  }

  /** Removing works piecewise, so the kept characters stay in their original order. */
  lemma {:induction false} RemovedAppend(a: string, b: string, characters: seq<char>)
    ensures Removed(a + b, characters) == Removed(a, characters) + Removed(b, characters)
    decreases |b|
  {
    if b == [] {
      assert a + b == a;
    } else {
      var b' := b[..|b| - 1];
      assert (a + b)[..|a + b| - 1] == a + b';
      assert (a + b)[|a + b| - 1] == b[|b| - 1];
      RemovedAppend(a, b', characters);
    }
  }

  /** Exactly the characters of `s` outside `characters` survive, and the result is no longer than `s`. */
  lemma {:induction false} RemovedMembers(s: string, characters: seq<char>)
    ensures forall c :: c in Removed(s, characters) <==> c in s && c !in characters
    ensures |Removed(s, characters)| <= |s|
  {
    if s != [] {
      RemovedMembers(s[..|s| - 1], characters);
      assert s == s[..|s| - 1] + [s[|s| - 1]];
    }
  }

  /** Nothing to remove (in particular, an empty removal set) leaves the input unchanged. */
  lemma {:induction false} RemovedNothing(s: string, characters: seq<char>)
    requires forall i | 0 <= i < |s| :: s[i] !in characters
    ensures Removed(s, characters) == s
  {
    if s != [] {
      RemovedNothing(s[..|s| - 1], characters);
      assert s == s[..|s| - 1] + [s[|s| - 1]];
    }
  }

  /** `remove`: copies the removal characters into a list, then keeps every input character not in it. */
  method Remove(input: string, characters: seq<char>) returns (r: string)
    ensures r == Removed(input, characters)
  {
    var characterList: seq<char> := [];
    for i := 0 to |characters|
      invariant characterList == characters[..i]
    {
      characterList := characterList + [characters[i]];
    }
    assert characterList == characters;
    r := [];
    for i := 0 to |input|
      invariant r == Removed(input[..i], characterList)
    {
      assert input[..i + 1][..i] == input[..i];
      if input[i] !in characterList {
        r := r + [input[i]];
      }
    }
    assert input[..|input|] == input;
  }

  /** The longest prefix of `s` that does not contain `separator`. */
  function Word(s: string, separator: char): (w: string)
    ensures w <= s && separator !in w
    ensures |w| < |s| ==> s[|w|] == separator
  {
    if s == [] || s[0] == separator then [] else [s[0]] + Word(s[1..], separator)
  }

  /** The maximal non-empty runs of characters other than `separator`, from left to right. */
  function Fields(s: string, separator: char): seq<string>
    decreases |s|
  {
    if s == [] then []
    else if s[0] == separator then Fields(s[1..], separator)
    else
      var w := Word(s, separator);
      [w] + Fields(s[|w|..], separator)
  }

  function Concat(parts: seq<string>): string {
    if parts == [] then [] else parts[0] + Concat(parts[1..])
  }

  /** Every character of every part occurs in the concatenation. */
  lemma {:induction false} ConcatMembers(parts: seq<string>)
    ensures forall i, c | 0 <= i < |parts| && c in parts[i] :: c in Concat(parts)
  {
    if parts != [] {
      ConcatMembers(parts[1..]);
      assert forall i | 1 <= i < |parts| :: parts[i] == parts[1..][i - 1];
    }
  }

  /** No field is empty and no field contains the separator. */
  lemma {:induction false} FieldsWellFormed(s: string, separator: char)
    ensures forall i | 0 <= i < |Fields(s, separator)| :: Fields(s, separator)[i] != [] && separator !in Fields(s, separator)[i]
    decreases |s|
  {
    if s == [] {
    } else if s[0] == separator {
      FieldsWellFormed(s[1..], separator);
    } else {
      var w := Word(s, separator);
      FieldsWellFormed(s[|w|..], separator);
    }
  }

  /** Gluing the fields back together gives the input with every separator removed. */
  lemma {:induction false} FieldsConcat(s: string, separator: char)
    ensures Concat(Fields(s, separator)) == Removed(s, [separator])
    decreases |s|
  {
    if s == [] {
    } else if s[0] == separator {
      FieldsConcat(s[1..], separator);
      assert s == [s[0]] + s[1..];
      RemovedAppend([s[0]], s[1..], [separator]);
      assert Removed([s[0]], [separator]) == Removed([], [separator]) + [];
    } else {
      var w := Word(s, separator);
      FieldsConcat(s[|w|..], separator);
      assert s == w + s[|w|..];
      RemovedAppend(w, s[|w|..], [separator]);
      RemovedNothing(w, [separator]);
      assert Fields(s, separator) == [w] + Fields(s[|w|..], separator);
    }
  }

  /** The input yields no field exactly when it consists of separators only (the empty input included). */
  lemma {:induction false} FieldsEmpty(s: string, separator: char)
    ensures Fields(s, separator) == [] <==> forall i | 0 <= i < |s| :: s[i] == separator
    decreases |s|
  {
    if s != [] && s[0] == separator {
      FieldsEmpty(s[1..], separator);
      assert forall i | 1 <= i < |s| :: s[i] == s[1..][i - 1];
    }
  }

  /** The longest separator-free prefix does not look past a separator. */
  lemma {:induction false} WordStops(a: string, t: string, separator: char)
    requires |Word(a, separator)| < |a| || (t != [] && t[0] == separator)
    ensures Word(a + t, separator) == Word(a, separator)
    decreases |a|
  {
    if a == [] {
    } else if a[0] == separator {
    } else {
      assert (a + t)[1..] == a[1..] + t;
      WordStops(a[1..], t, separator);
    }
  }

  /** A separator splits the fields of the two sides apart. */
  lemma {:induction false} FieldsSeparated(a: string, b: string, separator: char)
    ensures Fields(a + [separator] + b, separator) == Fields(a, separator) + Fields(b, separator)
    decreases |a|
  {
    var s := a + [separator] + b;
    if a == [] {
      assert s == [separator] + b;
      assert s[1..] == b;
    } else if a[0] == separator {
      assert s[1..] == a[1..] + [separator] + b;
      FieldsSeparated(a[1..], b, separator);
    } else {
      var w := Word(a, separator);
      WordStops(a, [separator] + b, separator);
      assert s == a + ([separator] + b);
      assert Word(s, separator) == w;
      assert s[|w|..] == a[|w|..] + [separator] + b;
      FieldsSeparated(a[|w|..], b, separator);
    }
  }

  /** A non-empty separator-free string is a single field. */
  lemma FieldOfWord(w: string, separator: char)
    requires w != [] && separator !in w
    ensures Fields(w, separator) == [w]
  {
    var v := Word(w, separator);
    assert |v| == |w|;
    assert v == w;
    assert w[|v|..] == [];
  }

  /** A trailing separator adds no field. */
  lemma FieldsTerminated(a: string, separator: char)
    ensures Fields(a + [separator], separator) == Fields(a, separator)
  {
    assert a + [separator] == a + [separator] + [];
    FieldsSeparated(a, [], separator);
  }

  /** After a text that is empty or ends with the separator, the fields simply continue. */
  lemma FieldsJoined(a: string, b: string, separator: char)
    requires a == [] || a[|a| - 1] == separator
    ensures Fields(a + b, separator) == Fields(a, separator) + Fields(b, separator)
  {
    if a == [] {
      assert a + b == b;
    } else {
      var front := a[..|a| - 1];
      assert a == front + [separator];
      assert a + b == front + [separator] + b;
      FieldsSeparated(front, b, separator);
      FieldsTerminated(front, separator);
    }
  }

  /** A word and a separator after a text that is empty or ends with the separator add that one field. */
  lemma FieldsAppendWord(a: string, w: string, separator: char)
    requires a == [] || a[|a| - 1] == separator
    requires w != [] && separator !in w
    ensures Fields(a + w + [separator], separator) == Fields(a, separator) + [w]
  {
    FieldsTerminated(a + w, separator);
    FieldsJoined(a, w, separator);
    FieldOfWord(w, separator);
  }

  /**
   * `split`: cuts the input after every space, dropping empty parts. The delimiter argument is
   * not consulted: the loop always compares with ' '.
   */
  method Split(input: string, delimiter: char) returns (items: seq<string>)
    ensures items == Fields(input, ' ')
  {
    items := [];
    var builder: string := [];
    assert builder + input[0..] == input;
    for i := 0 to |input|
      invariant ' ' !in builder
      invariant items + Fields(builder + input[i..], ' ') == Fields(input, ' ')
    {
      var character := input[i];
      assert input[i..][0] == character && input[i..][1..] == input[i + 1..];
      if character == ' ' {
        FieldsAtBlank(items, builder, input[i..]);
        if |builder| != 0 {
          items := items + [builder];
        }
        builder := [];
        assert builder + input[i + 1..] == input[i + 1..];
      } else {
        MoveFirst(builder, input[i..]);
        builder := builder + [character];
      }
    }
    assert builder + input[|input|..] == builder;
    if |builder| != 0 {
      FieldOfWord(builder, ' ');
      items := items + [builder];
    }
  }

  /** At a blank, the word collected so far, if any, is a field of its own. */
  lemma FieldsAtBlank(done: seq<string>, word: string, s: string)
    requires ' ' !in word && s != [] && s[0] == ' '
    ensures done + Fields(word + s, ' ') == (if word == [] then done else done + [word]) + Fields(s[1..], ' ')
  {
    assert word + s == word + [' '] + s[1..];
    FieldsSeparated(word, s[1..], ' ');
    if word != [] {
      FieldOfWord(word, ' ');
    }
  }

  /** Moving the first character of the rest onto the word keeps the whole text. */
  lemma MoveFirst(word: string, s: string)
    requires s != []
    ensures word + s == (word + [s[0]]) + s[1..]
  {
    assert s == [s[0]] + s[1..];
  }

}
