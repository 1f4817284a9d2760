/** `greeting` and its unit test. */
module Greeting {
  import opened Utf8

  /** `format!("hi {}", name)`: "hi " followed by the name, 3 bytes longer. */
  function Greeting(name: string): (r: string)
    ensures |r| == 3 + |name| && r[..3] == "hi " && r[3..] == name
    ensures Len(r) == 3 + Len(name)
  {
    var prefix := "hi ";
    LenCountsAscii(prefix);
    LenConcat(prefix, name);
    prefix + name
  }

  /** `sub` occurs in `s` starting at position `i`. */
  predicate OccursAt(s: string, sub: string, i: nat) {
    i + |sub| <= |s| && s[i..i + |sub|] == sub
  }

  /** `str::contains`: `sub` occurs in `s` at some position. */
  ghost predicate Contains(s: string, sub: string) {
    exists i: nat :: OccursAt(s, sub, i)
  }

  /** The greeting contains the name it was given. */
  lemma GreetingContainsName(name: string)
    ensures Contains(Greeting(name), name)
  {
    var g := Greeting(name);
    assert g[3..3 + |name|] == name;
    assert OccursAt(g, name, 3);
  }

  /** The test `greeting_contains_name`: the greeting for "carol" contains "carol". */
  lemma GreetingContainsCarol()
    ensures Contains(Greeting("carol"), "carol")
  {
    GreetingContainsName("carol");
  }
}
