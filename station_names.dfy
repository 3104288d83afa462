/**
 * `STATION_NAME_MAP` and `normalize_station_name` from
 * app/services/github_data.py: the key under which a live-feed station is
 * joined with the static station list.
 */
module StationNames {
  import opened Text

  /** Live-feed spelling -> static-list spelling. */
  const StationNameMap: map<string, string> := map[
    "Nagalagam Street" := "N' Street",
    "Kithulgala" := "Kitulgala",
    "Rathnapura" := "Ratnapura",
    "Thawalama" := "Tawalama",
    "Thanamalwila" := "Tanamalwila",
    "Thaldena" := "Taldena",
    "Horowpothana" := "Horowpatana",
    "Yaka Wewa" := "Yakawewa",
    "Thanthirimale" := "Tantirimale",
    "Padiyathalawa" := "Padiyatalawa",
    "Manampitiya" := "Manampitiya (HMIS)",
    "Weraganthota" := "Weragantota"
  ]

  /** `STATION_NAME_MAP.get(name, name)`. */
  function Alias(name: string): string {
    if name in StationNameMap then StationNameMap[name] else name
  }

  /** Lower-case, then delete apostrophes, spaces and parentheses. */
  function Fold(s: string): string {
    Remove(Remove(Remove(Remove(Lower(s), '\''), ' '), '('), ')')
  }

  predicate IsFolded(key: string) {
    NoUpper(key) && '\'' !in key && ' ' !in key && '(' !in key && ')' !in key
  }

  function Normalize(name: string): string {
    Fold(Alias(name))
  }

  /** Whatever the name, its key has no upper-case letter, apostrophe, space or parenthesis. */
  lemma FoldIsFolded(s: string)
    ensures IsFolded(Fold(s))
  {
    var l := Lower(s);
    LowerHasNoUpper(s);
    RemoveMembers(l, '\'');
    RemoveMembers(Remove(l, '\''), ' ');
    RemoveMembers(Remove(Remove(l, '\''), ' '), '(');
    RemoveMembers(Remove(Remove(Remove(l, '\''), ' '), '('), ')');
  }

  lemma NormalizeIsFolded(name: string)
    ensures IsFolded(Normalize(name))
  {
    FoldIsFolded(Alias(name));
  }

  /** Every alias key starts with an upper-case letter, so no folded string is a key. */
  lemma FoldedIsNotAliasKey(key: string)
    requires NoUpper(key)
    ensures key !in StationNameMap
  {
    AliasKeysStartUpper();
    if |key| > 0 {
      assert key[0] in key;
    }
  }

  lemma AliasKeysStartUpper()
    ensures forall k :: k in StationNameMap ==> |k| > 0 && IsUpper(k[0])
  {
  }

  /** Folding a string that is already folded changes nothing. */
  lemma FoldOfFolded(key: string)
    requires IsFolded(key)
    ensures Fold(key) == key
  {
    LowerOfLowercase(key);
    RemoveAbsent(key, '\'');
    RemoveAbsent(key, ' ');
    RemoveAbsent(key, '(');
    RemoveAbsent(key, ')');
  }

  lemma NormalizeIdempotent(name: string)
    ensures Normalize(Normalize(name)) == Normalize(name)
  {
    var key := Normalize(name);
    NormalizeIsFolded(name);
    FoldedIsNotAliasKey(key);
    FoldOfFolded(key);
  }

  /** No alias target is itself an alias key. */
  lemma AliasTargetsAreNotKeys()
    ensures forall k :: k in StationNameMap ==> StationNameMap[k] !in StationNameMap
  {
  }

  /** A live-feed spelling and its static-list spelling normalise to the same key. */
  lemma AliasesAgree(k: string)
    requires k in StationNameMap
    ensures Normalize(k) == Normalize(StationNameMap[k])
  {
    AliasTargetsAreNotKeys();
  }

  /** Normalisation ignores letter case for names that are not alias keys. */
  lemma NormalizeIgnoresCase(name: string)
    requires name !in StationNameMap
    ensures Normalize(Lower(name)) == Normalize(name)
  {
    LowerHasNoUpper(name);
    FoldedIsNotAliasKey(Lower(name));
    LowerOfLowercase(Lower(name));
  }

  /**
   * The alias lookup happens before lower-casing and is case-sensitive: a
   * lower-case spelling `a + " " + b` of an alias key `k` misses the alias, and
   * its key differs from `k`'s whenever it is longer than `k`'s alias target.
   */
  lemma AliasLookupIsCaseSensitive(k: string, a: string, b: string)
    requires k in StationNameMap && IsFolded(a) && IsFolded(b)
    requires |a| + |b| > |StationNameMap[k]|
    ensures a + " " + b !in StationNameMap
    ensures Normalize(a + " " + b) != Normalize(k)
  {
    FoldDropsSpace(a, b);
    var s := a + " " + b;
    assert NoUpper(s) by {
      forall x | x in s ensures !IsUpper(x) {
        assert x in a || x == ' ' || x in b;
      }
    }
    FoldedIsNotAliasKey(s);
    FoldNoLonger(StationNameMap[k]);
  }

  /**
   * "nagalagam street" is such a spelling of "Nagalagam Street": it normalises
   * to "nagalagamstreet", the alias key to the key of "N' Street".
   */
  lemma NagalagamStreetIsCaseSensitive()
    ensures "Nagalagam Street" in StationNameMap
    ensures IsFolded("nagalagam") && IsFolded("street")
    ensures |"nagalagam"| + |"street"| > |StationNameMap["Nagalagam Street"]|
  {
    var a, b := "nagalagam", "street";
    assert NoUpper(a) by {
      forall x | x in a ensures !IsUpper(x) {
        assert 'a' <= x <= 'z';
      }
    }
    assert NoUpper(b) by {
      forall x | x in b ensures !IsUpper(x) {
        assert 'a' <= x <= 'z';
      }
    }
  }

  /** "nagalagam street" is the lower-case form of the alias key "Nagalagam Street"... */
  lemma NagalagamStreetLowered()
    ensures Lower("Nagalagam Street") == "nagalagam" + " " + "street"
  {
  }

  /** ...and it does not join the static entry that "Nagalagam Street" joins. */
  lemma NagalagamStreetMissesItsAlias()
    ensures Normalize("nagalagam" + " " + "street") != Normalize("Nagalagam Street")
  {
    NagalagamStreetIsCaseSensitive();
    AliasLookupIsCaseSensitive("Nagalagam Street", "nagalagam", "street");
  }

  lemma FoldNoLonger(s: string)
    ensures |Fold(s)| <= |s|
  {
  }

  /** Folding two folded words joined by a space concatenates them. */
  lemma FoldDropsSpace(a: string, b: string)
    requires IsFolded(a) && IsFolded(b)
    ensures Fold(a + " " + b) == a + b
  {
    var s := a + " " + b;
    assert NoUpper(s) by {
      forall x | x in s ensures !IsUpper(x) {
        assert x in a || x == ' ' || x in b;
      }
    }
    LowerOfLowercase(s);
    RemoveAbsent(s, '\'');
    RemoveAppend(a + " ", b, ' ');
    RemoveAppend(a, " ", ' ');
    RemoveAbsent(a, ' ');
    RemoveAbsent(b, ' ');
    assert Remove(" ", ' ') == [];
    assert a + [] == a;
    RemoveAbsent(a + b, '(');
    RemoveAbsent(a + b, ')');
  }

  /** Deleting an apostrophe, space or parenthesis beforehand does not change the folded key. */
  lemma FoldIgnoresStrippedChar(s: string, c: char)
    requires c in {'\'', ' ', '(', ')'}
    ensures Fold(Remove(s, c)) == Fold(s)
  {
    LowerRemoveCommute(s, c);
    var l := Lower(s);
    var r1 := Remove(l, c);
    // Move the extra deletion of `c` to the stage of the pipeline that deletes `c`.
    if c == '\'' {
      RemoveTwice(l, c);
    } else if c == ' ' {
      RemoveCommute(l, c, '\'');
      RemoveTwice(Remove(l, '\''), c);
    } else if c == '(' {
      RemoveCommute(l, c, '\'');
      RemoveCommute(Remove(l, '\''), c, ' ');
      RemoveTwice(Remove(Remove(l, '\''), ' '), c);
    } else {
      RemoveCommute(l, c, '\'');
      RemoveCommute(Remove(l, '\''), c, ' ');
      RemoveCommute(Remove(Remove(l, '\''), ' '), c, '(');
      RemoveTwice(Remove(Remove(Remove(l, '\''), ' '), '('), c);
    }
  }

  /** For names that are not alias keys, normalisation ignores apostrophes, spaces and parentheses. */
  lemma NormalizeIgnoresStrippedChar(name: string, c: char)
    requires c in {'\'', ' ', '(', ')'}
    requires name !in StationNameMap && Remove(name, c) !in StationNameMap
    ensures Normalize(Remove(name, c)) == Normalize(name)
  {
    FoldIgnoresStrippedChar(name, c);
  }

  lemma {:induction false} LowerRemoveCommute(s: string, c: char)
    requires !IsUpper(c) && !('a' <= c <= 'z')
    ensures Lower(Remove(s, c)) == Remove(Lower(s), c)
  {
    if s != [] {
      LowerRemoveCommute(s[1..], c);
      assert Lower(s)[1..] == Lower(s[1..]);
      var head := if s[0] == c then [] else [s[0]];
      LowerAppend(head, Remove(s[1..], c));
    }
  }

  lemma {:induction false} RemoveCommute(s: string, a: char, b: char)
    ensures Remove(Remove(s, a), b) == Remove(Remove(s, b), a)
  {
    if s != [] {
      RemoveCommute(s[1..], a, b);
      RemoveAppend(if s[0] == a then [] else [s[0]], Remove(s[1..], a), b);
      RemoveAppend(if s[0] == b then [] else [s[0]], Remove(s[1..], b), a);
    }
  }

  lemma {:induction false} RemoveTwice(s: string, c: char)
    ensures Remove(Remove(s, c), c) == Remove(s, c)
  {
    RemoveMembers(s, c);
    RemoveAbsent(Remove(s, c), c);
  }

  lemma {:induction false} RemoveAppend(s: string, t: string, c: char)
    ensures Remove(s + t, c) == Remove(s, c) + Remove(t, c)
  {
    if s == [] {
      assert s + t == t;
    } else {
      assert (s + t)[1..] == s[1..] + t;
      RemoveAppend(s[1..], t, c);
    }
  }
}
