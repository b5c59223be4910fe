/** Topic::isMatch: the scan of a topic name against a filter with wildcards,
    compared with the level-by-level rules of MQTT 3.1.1, section 4.7.1. */
module TopicFilter {

  /** string::find from a position: the next '/', or the length when there is none (npos). */
  function FindSlash(s: string, pos: nat): (loc: nat)
    requires pos <= |s|
    ensures pos <= loc <= |s| && (loc < |s| ==> s[loc] == '/')
    decreases |s| - pos
  {
    if pos == |s| then pos
    else if s[pos] == '/' then pos
    else FindSlash(s, pos + 1)
  }

  lemma {:induction false} NoSlashBefore(s: string, pos: nat)
    requires pos <= |s|
    ensures '/' !in s[pos..FindSlash(s, pos)]
    decreases |s| - pos
  {
    var loc := FindSlash(s, pos);
    if pos < loc {
      NoSlashBefore(s, pos + 1);
      assert s[pos..loc] == [s[pos]] + s[pos + 1..loc];
    }
  }

  /** The levels from a position on: the parts between the slashes. */
  function LevelsFrom(s: string, pos: nat): (ls: seq<string>)
    requires pos <= |s|
    ensures |ls| >= 1 && forall l :: l in ls ==> '/' !in l
    decreases |s| - pos
  {
    var loc := FindSlash(s, pos);
    NoSlashBefore(s, pos);
    if loc == |s| then [s[pos..]] else [s[pos..loc]] + LevelsFrom(s, loc + 1)
  }

  /** The levels of a topic name or filter. */
  function Levels(s: string): (ls: seq<string>)
    ensures |ls| >= 1 && forall l :: l in ls ==> '/' !in l
  {
    LevelsFrom(s, 0)
  }

  predicate NoSlashes(ls: seq<string>) { forall i :: 0 <= i < |ls| ==> '/' !in ls[i] }

  function Join(ls: seq<string>): string
    requires |ls| >= 1
  {
    if |ls| == 1 then ls[0] else ls[0] + "/" + Join(ls[1..])
  }

  lemma {:induction false} LevelsOfJoin(s: string, pos: nat, ls: seq<string>)
    requires |ls| >= 1 && NoSlashes(ls)
    requires pos <= |s| && s[pos..] == Join(ls)
    ensures LevelsFrom(s, pos) == ls
    decreases |ls|
  {
    assert ls[0] in ls;
    if |ls| == 1 {
      FirstLevel(s, pos, ls[0], "");
    } else {
      FirstLevel(s, pos, ls[0], "/" + Join(ls[1..]));
      LevelsOfJoin(s, pos + |ls[0]| + 1, ls[1..]);
    }
  }

  lemma FirstLevel(s: string, pos: nat, level: string, rest: string)
    requires pos <= |s| && s[pos..] == level + rest
    requires '/' !in level && (rest == "" || rest[0] == '/')
    ensures FindSlash(s, pos) == pos + |level| && s[pos..pos + |level|] == level
    ensures rest != "" ==> s[pos + |level| + 1..] == rest[1..]
  {
    var n := |level|;
    assert |s| - pos == n + |rest|;
    assert forall i :: 0 <= i < n ==> s[pos + i] == (level + rest)[i] == level[i];
    if rest != "" {
      assert s[pos + n] == (level + rest)[n];
      assert (level + rest)[n + 1..] == rest[1..];
      assert s[pos..][n + 1..] == s[pos + n + 1..];
    }
    assert s[pos..][..n] == s[pos..pos + n];
    FindExact(s, pos, pos + n);
  }

  lemma {:induction false} FindExact(s: string, pos: nat, loc: nat)
    requires pos <= loc <= |s| && (loc < |s| ==> s[loc] == '/')
    requires forall i :: pos <= i < loc ==> s[i] != '/'
    ensures FindSlash(s, pos) == loc
    decreases loc - pos
  {
    if pos < loc { FindExact(s, pos + 1, loc); }
  }

  lemma {:induction false} JoinOfLevels(s: string, pos: nat)
    requires pos <= |s|
    ensures Join(LevelsFrom(s, pos)) == s[pos..]
    decreases |s| - pos
  {
    var loc := FindSlash(s, pos);
    if loc < |s| {
      JoinOfLevels(s, loc + 1);
      assert LevelsFrom(s, pos)[1..] == LevelsFrom(s, loc + 1);
      assert s[pos..] == s[pos..loc] + "/" + s[loc + 1..];
    }
  }

  // ---- the scan, level by level ----

  function Scan(filter: seq<string>, name: seq<string>): bool
    requires |filter| >= 1 && |name| >= 1
  {
    if |name| > 1 && |filter| > 1 then
      if filter[0] == "#" then true
      else if filter[0] == "+" then Scan(filter[1..], name[1..])
      else if name[0] != filter[0] then false
      else Scan(filter[1..], name[1..])
    else if |name| == 1 && |filter| == 1 then
      filter[0] == "#" || filter[0] == "+" || name[0] == filter[0]
    else if |name| == 1 then
      name[0] == filter[0] && filter[1..] == ["#"]
    else
      filter == ["#"]
  }

  /** What the scan of the rest comes to, told by the next slash of either side. */
  lemma OneLevel(filter: string, tpos: nat, name: string, pos: nat)
    requires tpos <= |filter| && pos <= |name|
    ensures var loc, tloc := FindSlash(name, pos), FindSlash(filter, tpos);
            Scan(LevelsFrom(filter, tpos), LevelsFrom(name, pos)) ==
            if loc < |name| && tloc < |filter| then
              filter[tpos..tloc] == "#" ||
              ((filter[tpos..tloc] == "+" || filter[tpos..tloc] == name[pos..loc]) &&
               Scan(LevelsFrom(filter, tloc + 1), LevelsFrom(name, loc + 1)))
            else if loc == |name| && tloc == |filter| then
              filter[tpos..] == "#" || filter[tpos..] == "+" || filter[tpos..] == name[pos..]
            else if loc == |name| then
              filter[tpos..tloc] == name[pos..] && filter[tloc + 1..] == "#"
            else
              filter[tpos..] == "#"
  {
    var loc, tloc := FindSlash(name, pos), FindSlash(filter, tpos);
    var f, n := LevelsFrom(filter, tpos), LevelsFrom(name, pos);
    assert tloc < |filter| ==> f[1..] == LevelsFrom(filter, tloc + 1);
    assert loc < |name| ==> n[1..] == LevelsFrom(name, loc + 1);
    if tloc < |filter| {
      OnlyHash(filter, tloc + 1);
    } else {
      OnlyHash(filter, tpos);
    }
  }

  /** The scan by positions in the two strings. */
  function ScanAt(filter: string, tpos: nat, name: string, pos: nat): bool
    requires tpos <= |filter| && pos <= |name|
    decreases |filter| - tpos
  {
    var loc, tloc := FindSlash(name, pos), FindSlash(filter, tpos);
    if loc < |name| && tloc < |filter| then
      filter[tpos..tloc] == "#" ||
      ((filter[tpos..tloc] == "+" || filter[tpos..tloc] == name[pos..loc]) && ScanAt(filter, tloc + 1, name, loc + 1))
    else if loc == |name| && tloc == |filter| then
      filter[tpos..] == "#" || filter[tpos..] == "+" || filter[tpos..] == name[pos..]
    else if loc == |name| then
      filter[tpos..tloc] == name[pos..] && filter[tloc + 1..] == "#"
    else
      filter[tpos..] == "#"
  }

  lemma {:induction false} ScanAtIsScan(filter: string, tpos: nat, name: string, pos: nat)
    requires tpos <= |filter| && pos <= |name|
    ensures ScanAt(filter, tpos, name, pos) == Scan(LevelsFrom(filter, tpos), LevelsFrom(name, pos))
    decreases |filter| - tpos
  {
    var loc, tloc := FindSlash(name, pos), FindSlash(filter, tpos);
    OneLevel(filter, tpos, name, pos);
    if loc < |name| && tloc < |filter| {
      ScanAtIsScan(filter, tloc + 1, name, loc + 1);
    }
  }

  /** A level that fits and has a successor on both sides leaves the verdict to the levels behind it. */
  lemma ScanOn(filter: string, tpos: nat, topicName: string, pos: nat)
    requires tpos <= |filter| && pos <= |topicName|
    requires var loc, tloc := FindSlash(topicName, pos), FindSlash(filter, tpos);
             loc < |topicName| && tloc < |filter| && filter[tpos..tloc] != "#" &&
             (filter[tpos..tloc] == "+" || filter[tpos..tloc] == topicName[pos..loc])
    ensures ScanAt(filter, tpos, topicName, pos)
            == ScanAt(filter, FindSlash(filter, tpos) + 1, topicName, FindSlash(topicName, pos) + 1)
  {
  }

  method IsMatch(filter: string, topicName: string) returns (b: bool)
    ensures b == ScanAt(filter, 0, topicName, 0)
  {
    ghost var verdict := ScanAt(filter, 0, topicName, 0);
    var tpos, pos := 0, 0;
    while true
      invariant tpos <= |filter| && pos <= |topicName|
      invariant verdict == ScanAt(filter, tpos, topicName, pos)
      decreases |filter| - tpos
    {
      var loc := FindSlash(topicName, pos);
      var tloc := FindSlash(filter, tpos);
      if loc < |topicName| && tloc < |filter| {
        var subtopic, subtopict := topicName[pos..loc], filter[tpos..tloc];
        if subtopict == "#" {
          return true;
        }
        if subtopict == "+" {
          ScanOn(filter, tpos, topicName, pos);
          // tloc is a position in the filter, so tloc + 1 never lies beyond its end
          tpos := tloc + 1;
          pos := loc + 1;
        } else if subtopic != subtopict {
          return false;
        } else {
          ScanOn(filter, tpos, topicName, pos);
          tpos := tloc + 1;
          pos := loc + 1;
        }
      } else if loc == |topicName| && tloc == |filter| {
        var subtopic, subtopict := topicName[pos..], filter[tpos..];
        if subtopict == "#" || subtopict == "+" {
          return true;
        } else if subtopic == subtopict {
          return true;
        } else {
          return false;
        }
      } else if loc == |topicName| {
        var subtopic, subtopict := topicName[pos..], filter[tpos..tloc];
        if subtopic != subtopict {
          return false;
        }
        return filter[tloc + 1..] == "#";
      } else {
        return filter[tpos..] == "#";
      }
    }
  }

  lemma OnlyHash(s: string, pos: nat)
    requires pos <= |s|
    ensures s[pos..] == "#" <==> LevelsFrom(s, pos) == ["#"]
  {
    JoinOfLevels(s, pos);
    if s[pos..] == "#" {
      LevelsOfJoin(s, pos, ["#"]);
    }
  }

  // ---- the rules of the standard ----

  predicate LevelMatches(f: string, n: string) { f == "+" || f == n }

  /** Section 4.7.1: `#` stands for its parent and any number of further levels,
      `+` for exactly one level, anything else for itself. */
  predicate MqttMatch(filter: seq<string>, name: seq<string>)
    requires |filter| >= 1
  {
    var k := |filter| - 1;
    if filter[k] == "#" then
      |name| >= k && forall i :: 0 <= i < k ==> LevelMatches(filter[i], name[i])
    else
      |name| == |filter| && forall i :: 0 <= i < |filter| ==> LevelMatches(filter[i], name[i])
  }

  /** [MQTT-4.7.1-2] and [MQTT-4.7.1-3]: a wildcard fills its level, `#` only the last one. */
  predicate WellFormed(filter: seq<string>) {
    forall i :: 0 <= i < |filter| ==>
      && ('#' in filter[i] ==> filter[i] == "#" && i == |filter| - 1)
      && ('+' in filter[i] ==> filter[i] == "+")
  }

  predicate EndsPlusHash(filter: seq<string>) {
    |filter| >= 2 && filter[|filter| - 1] == "#" && filter[|filter| - 2] == "+"
  }

  /** The one case the scan misses: the name ends at a `+` that `/#` follows. */
  predicate Missed(filter: seq<string>, name: seq<string>) {
    && EndsPlusHash(filter) && |filter| == |name| + 1
    && name[|name| - 1] != "+"
  }

  /** For a well-formed filter the scan reports a match exactly when the standard does,
      the missed case excepted. */
  lemma {:induction false} ScanMeaning(filter: seq<string>, name: seq<string>)
    requires |filter| >= 1 && |name| >= 1 && WellFormed(filter)
    ensures Scan(filter, name) <==> MqttMatch(filter, name) && !Missed(filter, name)
  {
    if |name| > 1 && |filter| > 1 {
      assert '#' !in filter[0];
      TailMeaning(filter, name);
      ScanMeaning(filter[1..], name[1..]);
    } else if |name| == 1 && |filter| > 1 {
      assert '#' !in filter[0];
      if |filter| == 2 {
        assert filter[1..] == [filter[1]];
      }
    }
  }

  lemma TailMeaning(filter: seq<string>, name: seq<string>)
    requires |filter| > 1 && |name| > 1 && WellFormed(filter)
    ensures WellFormed(filter[1..])
    ensures MqttMatch(filter, name) <==> LevelMatches(filter[0], name[0]) && MqttMatch(filter[1..], name[1..])
    ensures Missed(filter, name) <==> Missed(filter[1..], name[1..])
  {
    var f, n := filter[1..], name[1..];
    assert forall i :: 0 <= i < |f| ==> f[i] == filter[i + 1];
    assert forall i :: 0 <= i < |n| ==> n[i] == name[i + 1];
    if MqttMatch(filter, name) {
      assert LevelMatches(filter[0], name[0]);
      forall i | 0 <= i < |f| && (f[|f| - 1] == "#" ==> i < |f| - 1) ensures i < |n| && LevelMatches(f[i], n[i]) {
        assert LevelMatches(filter[i + 1], name[i + 1]);
      }
    }
    if LevelMatches(filter[0], name[0]) && MqttMatch(f, n) {
      forall i | 0 <= i < |filter| && (filter[|filter| - 1] == "#" ==> i < |filter| - 1)
        ensures i < |name| && LevelMatches(filter[i], name[i])
      {
        if i > 0 { assert LevelMatches(f[i - 1], n[i - 1]); }
      }
    }
  }

  /** What `IsMatch` answers for a well-formed filter, in the terms of the standard. */
  lemma MatchMeaning(filter: string, name: string)
    requires WellFormed(Levels(filter))
    ensures ScanAt(filter, 0, name, 0)
            <==> MqttMatch(Levels(filter), Levels(name)) && !Missed(Levels(filter), Levels(name))
  {
    ScanAtIsScan(filter, 0, name, 0);
    ScanMeaning(Levels(filter), Levels(name));
  }

  /** `IsMatch` decides a well-formed filter as the standard asks, for every topic name,
      if and only if the filter does not end in `+/#`. */
  lemma MatchIsExact(filter: string)
    requires WellFormed(Levels(filter))
    ensures (forall name: string :: ScanAt(filter, 0, name, 0) <==> MqttMatch(Levels(filter), Levels(name)))
       <==> !EndsPlusHash(Levels(filter))
  {
    var f := Levels(filter);
    forall name: string
      ensures ScanAt(filter, 0, name, 0) <==> MqttMatch(f, Levels(name)) && !Missed(f, Levels(name))
    {
      MatchMeaning(filter, name);
    }
    if EndsPlusHash(f) {
      var n := Instance(f[..|f| - 1]);
      var name := Join(n);
      assert name[0..] == name;
      LevelsOfJoin(name, 0, n);
      assert Levels(name) == n && Missed(f, n) && MqttMatch(f, n);
      assert ScanAt(filter, 0, name, 0) != MqttMatch(f, Levels(name));
    }
  }

  /** A topic name for a filter without `#`: every `+` becomes a level "x". */
  function Instance(filter: seq<string>): (name: seq<string>)
    requires forall l :: l in filter ==> '/' !in l
    ensures |name| == |filter|
    ensures forall i :: 0 <= i < |name| ==> '/' !in name[i] && LevelMatches(filter[i], name[i]) && name[i] != "+"
  {
    if filter == [] then []
    else [if filter[0] == "+" then "x" else filter[0]] + Instance(filter[1..])
  }

  /** Every name matches the filter "#". */
  lemma HashMatches(name: string)
    requires '/' !in name
    ensures ScanAt("#", 0, name, 0)
  {
    FindExact(name, 0, |name|);
    FindExact("#", 0, 1);
  }
}
