/**
 * The parser of `db` struct tags, which name the table, the key column and
 * the label column a database lookup reads.  Two spellings are accepted:
 * the compact `table:key:value` and the explicit `table=..,key=..,value=..`.
 */
module DbParser {
  import opened Wrappers
  import opened Strings

  datatype Coords = Coords(table: string, keyField: string, valueField: string)

  const NoCoords := Coords("", "", "")

  /** The compact form is chosen iff the tag holds a ':' and no '='. */
  predicate CompactForm(tag: string) {
    ':' in tag && '=' !in tag
  }

  /** One trimmed part of the explicit form: a known prefix sets its coordinate. */
  function ExplicitStep(c: Coords, part: string): Coords {
    if HasPrefix(part, "table=") then c.(table := TrimPrefix(part, "table="))
    else if HasPrefix(part, "key=") then c.(keyField := TrimPrefix(part, "key="))
    else if HasPrefix(part, "value=") then c.(valueField := TrimPrefix(part, "value="))
    else c
  }

  /** The explicit-form loop over the ','-separated parts, as a left fold. */
  function FoldExplicit(parts: seq<string>): Coords {
    if |parts| == 0 then NoCoords
    else ExplicitStep(FoldExplicit(parts[..|parts| - 1]), TrimSpace(parts[|parts| - 1]))
  }

  /** The coordinates the tag spells, before the emptiness check. */
  function Scan(tag: string): Coords {
    if CompactForm(tag) then
      var parts := Split(tag, ':');
      if |parts| == 3 then Coords(TrimSpace(parts[0]), TrimSpace(parts[1]), TrimSpace(parts[2]))
      else NoCoords
    else FoldExplicit(Split(tag, ','))
  }

  predicate Complete(c: Coords) {
    c.table != "" && c.keyField != "" && c.valueField != ""
  }

  /** parseDBTag: the coordinates of the lookup, or None when no translator is made. */
  function ParseTag(tag: string): (r: Option<Coords>)
    ensures tag == "" ==> r == None
    ensures r.Some? ==> Complete(r.value)
  {
    if tag == "" then None
    else
      var c := Scan(tag);
      if Complete(c) then Some(c) else None
  }

  /** parseDBTag as the source writes it, with a loop for the explicit form. */
  method ParseDbTag(tag: string) returns (r: Option<Coords>)
    ensures r == ParseTag(tag)
  {
    if tag == "" {
      return None;
    }
    var table, keyField, valueField := "", "", "";
    if ':' in tag && '=' !in tag {
      var parts := Split(tag, ':');
      if |parts| == 3 {
        table := TrimSpace(parts[0]);
        keyField := TrimSpace(parts[1]);
        valueField := TrimSpace(parts[2]);
      }
    } else {
      var parts := Split(tag, ',');
      var i := 0;
      while i < |parts|
        invariant 0 <= i <= |parts|
        invariant Coords(table, keyField, valueField) == FoldExplicit(parts[..i])
      {
        var part := TrimSpace(parts[i]);
        if HasPrefix(part, "table=") {
          table := TrimPrefix(part, "table=");
        } else if HasPrefix(part, "key=") {
          keyField := TrimPrefix(part, "key=");
        } else if HasPrefix(part, "value=") {
          valueField := TrimPrefix(part, "value=");
        }
        assert parts[..i + 1][..i] == parts[..i];
        i := i + 1;
      }
      assert parts[..i] == parts;
    }
    if table == "" || keyField == "" || valueField == "" {
      return None;
    }
    return Some(Coords(table, keyField, valueField));
  }

  /** The value after the last trimmed part that starts with `prefix`, if any. */
  function LastSetting(parts: seq<string>, prefix: string): Option<string> {
    if |parts| == 0 then None
    else
      var p := TrimSpace(parts[|parts| - 1]);
      if HasPrefix(p, prefix) then Some(TrimPrefix(p, prefix))
      else LastSetting(parts[..|parts| - 1], prefix)
  }

  function OrEmpty(o: Option<string>): string {
    if o.Some? then o.value else ""
  }

  /**
   * In the explicit form each coordinate is set by the last part naming it,
   * other parts are ignored, and an unnamed coordinate stays empty.
   */
  lemma {:induction false} FoldExplicitLastWins(parts: seq<string>)
    ensures FoldExplicit(parts).table == OrEmpty(LastSetting(parts, "table="))
    ensures FoldExplicit(parts).keyField == OrEmpty(LastSetting(parts, "key="))
    ensures FoldExplicit(parts).valueField == OrEmpty(LastSetting(parts, "value="))
  {
    if |parts| > 0 {
      var init := parts[..|parts| - 1];
      var p := TrimSpace(parts[|parts| - 1]);
      FoldExplicitLastWins(init);
      PrefixesExclusive(p);
      assert FoldExplicit(parts) == ExplicitStep(FoldExplicit(init), p);
    }
  }

  /** A part starts with at most one of the three setting prefixes. */
  lemma PrefixesExclusive(p: string)
    ensures HasPrefix(p, "table=") ==> !HasPrefix(p, "key=") && !HasPrefix(p, "value=")
    ensures HasPrefix(p, "key=") ==> !HasPrefix(p, "value=")
  {
    if HasPrefix(p, "table=") {
      assert p[0] == "table="[0];
    } else if HasPrefix(p, "key=") {
      assert p[0] == "key="[0];
    }
  }

  /** A compact tag whose ':' count is not two yields no translator. */
  lemma CompactNeedsThreeParts(tag: string)
    requires CompactForm(tag)
    requires |Split(tag, ':')| != 3
    ensures ParseTag(tag) == None
  {
  }

  /** A tag of three trimmed, comma-free parts in the explicit form folds them in order. */
  lemma ExplicitThree(a: string, b: string, c: string)
    requires '=' in a && ',' !in a && ',' !in b && ',' !in c
    requires Trimmed(a) && Trimmed(b) && Trimmed(c)
    ensures Scan(a + "," + b + "," + c) == ExplicitStep(ExplicitStep(ExplicitStep(NoCoords, a), b), c)
  {
    var tag := a + "," + b + "," + c;
    assert tag == a + [','] + b + [','] + c;
    SplitThree(a, b, c, ',');
    assert '=' in tag by {
      var j :| 0 <= j < |a| && a[j] == '=';
      assert tag[j] == '=';
    }
    assert Scan(tag) == FoldExplicit([a, b, c]);
    FoldThree(a, b, c);
  }

  /** Folding three trimmed parts applies them in order. */
  lemma FoldThree(a: string, b: string, c: string)
    requires Trimmed(a) && Trimmed(b) && Trimmed(c)
    ensures FoldExplicit([a, b, c]) == ExplicitStep(ExplicitStep(ExplicitStep(NoCoords, a), b), c)
  {
    var s1, s2, s3 := [a], [a, b], [a, b, c];
    assert s1[..0] == [] && s2[..1] == s1 && s3[..2] == s2;
    assert s1[0] == a && s2[1] == b && s3[2] == c;
    TrimSpaceOfTrimmed(a);
    assert FoldExplicit(s1[..0]) == NoCoords;
    var c1 := FoldExplicit(s1);
    assert c1 == ExplicitStep(FoldExplicit(s1[..0]), TrimSpace(s1[0]));
    assert c1 == ExplicitStep(NoCoords, a);
    TrimSpaceOfTrimmed(b);
    var c2 := FoldExplicit(s2);
    assert c2 == ExplicitStep(c1, b);
    TrimSpaceOfTrimmed(c);
    assert FoldExplicit(s3) == ExplicitStep(c2, c);
  }

  /** The coordinates a clean tag spells: non-empty, trimmed, free of ':', '=' and ','. */
  predicate Clean(x: string) {
    x != "" && Trimmed(x) && ':' !in x && '=' !in x && ',' !in x
  }

  /** A compact tag of clean coordinates parses to them. */
  lemma CompactParses(t: string, k: string, v: string)
    requires Clean(t) && Clean(k) && Clean(v)
    ensures ParseTag(t + ":" + k + ":" + v) == Some(Coords(t, k, v))
  {
    var compact := t + ":" + k + ":" + v;
    assert compact == t + [':'] + k + [':'] + v;
    SplitThree(t, k, v, ':');
    assert compact[|t|] == ':';
    assert CompactForm(compact);
    TrimSpaceOfTrimmed(t);
    TrimSpaceOfTrimmed(k);
    TrimSpaceOfTrimmed(v);
  }

  /** A coordinate the explicit form carries through: non-empty, comma-free, no trailing space. */
  predicate ExplicitValue(x: string) {
    x != "" && !IsSpace(x[|x| - 1]) && ',' !in x
  }

  /** The three named parts set the three coordinates. */
  lemma ExplicitSteps(t: string, k: string, v: string)
    ensures ExplicitStep(ExplicitStep(ExplicitStep(NoCoords, "table=" + t), "key=" + k), "value=" + v)
         == Coords(t, k, v)
  {
    var pt, pk, pv := "table=" + t, "key=" + k, "value=" + v;
    assert HasPrefix(pt, "table=") && TrimPrefix(pt, "table=") == t;
    assert pk[0] == 'k' && pv[0] == 'v';
    assert !HasPrefix(pk, "table=") && HasPrefix(pk, "key=") && TrimPrefix(pk, "key=") == k;
    assert !HasPrefix(pv, "table=") && !HasPrefix(pv, "key=") && HasPrefix(pv, "value=");
    assert TrimPrefix(pv, "value=") == v;
  }

  /** An explicit tag parses to the coordinates it spells. */
  lemma ExplicitParses(t: string, k: string, v: string)
    requires ExplicitValue(t) && ExplicitValue(k) && ExplicitValue(v)
    ensures ParseTag("table=" + t + ",key=" + k + ",value=" + v) == Some(Coords(t, k, v))
  {
    var pt, pk, pv := "table=" + t, "key=" + k, "value=" + v;
    ExplicitPart("table=", t);
    ExplicitPart("key=", k);
    ExplicitPart("value=", v);
    assert pt[5] == '=';
    ExplicitThree(pt, pk, pv);
    ExplicitSteps(t, k, v);
    ExplicitSpelling(t, k, v);
  }

  /** A prefix followed by an explicit value is a trimmed, comma-free part. */
  lemma ExplicitPart(prefix: string, x: string)
    requires prefix != "" && !IsSpace(prefix[0]) && ',' !in prefix
    requires ExplicitValue(x)
    ensures Trimmed(prefix + x) && ',' !in prefix + x
  {
    var p := prefix + x;
    assert p[0] == prefix[0] && p[|p| - 1] == x[|x| - 1];
  }

  /** The explicit tag is its three parts joined by commas. */
  lemma ExplicitSpelling(t: string, k: string, v: string)
    ensures "table=" + t + ",key=" + k + ",value=" + v
         == ("table=" + t) + "," + ("key=" + k) + "," + ("value=" + v)
  {
    assert ",key=" == "," + "key=";
    assert ",value=" == "," + "value=";
  }

  /** For clean coordinates the compact and the explicit spellings agree. */
  lemma CompactAgreesWithExplicit(t: string, k: string, v: string)
    requires Clean(t) && Clean(k) && Clean(v)
    ensures ParseTag(t + ":" + k + ":" + v) == ParseTag("table=" + t + ",key=" + k + ",value=" + v)
  {
    CompactParses(t, k, v);
    ExplicitParses(t, k, v);
  }

  /** Inside the explicit form only whole parts are trimmed: a space after '=' stays. */
  lemma ExplicitKeepsInnerSpace(t: string, k: string, v: string)
    requires Clean(t) && Clean(k) && Clean(v)
    ensures ParseTag("table= " + t + ",key=" + k + ",value=" + v) == Some(Coords(" " + t, k, v))
  {
    var st := " " + t;
    assert st[|st| - 1] == t[|t| - 1];
    ExplicitParses(st, k, v);
    assert "table= " + t == "table=" + st;
  }
}
