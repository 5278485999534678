// client/src/components/EditProfile.jsx: the profile form shows the skills as
// one comma-separated text and turns the edited text back into a list on
// submit.
module EditProfile {
  import opened Text

  /** The form's initial skills text: the skills joined with ", ", or empty
      when the user has none. */
  function SkillsText(skills: seq<string>): (r: string)
    ensures skills == [] ==> r == ""
    ensures |skills| == 1 ==> r == skills[0]
  {
    Join(skills, ", ")
  }

  /** Each piece trimmed. */
  function TrimAll(pieces: seq<string>): (r: seq<string>)
    ensures |r| == |pieces|
    ensures forall i :: 0 <= i < |r| ==> r[i] == Trim(pieces[i])
  {
    seq(|pieces|, i requires 0 <= i < |pieces| => Trim(pieces[i]))
  }

  /** `.filter(Boolean)` on strings: the non-empty ones, in order, repeats
      kept; a list with no empty string passes whole. */
  function NonEmpty(pieces: seq<string>): (r: seq<string>)
    ensures |r| <= |pieces|
    ensures forall s :: s in r <==> s in pieces && s != ""
    ensures (forall i :: 0 <= i < |pieces| ==> pieces[i] != "") ==> r == pieces
  {
    if |pieces| == 0 then []
    else (if pieces[0] != "" then [pieces[0]] else []) + NonEmpty(pieces[1..])
  }

  /** Filtering distributes over concatenation, so the kept strings stay in
      their order. */
  lemma {:induction false} NonEmptyAppend(a: seq<string>, b: seq<string>)
    ensures NonEmpty(a + b) == NonEmpty(a) + NonEmpty(b)
    decreases |a|
  {
    if |a| > 0 {
      assert (a + b)[1..] == a[1..] + b;
      NonEmptyAppend(a[1..], b);
    } else {
      assert a + b == b;
    }
  }

  /** A trimmed piece gains no character its source lacked. */
  lemma {:induction false} TrimKeepsAbsent(s: string, c: char)
    requires c !in s
    ensures c !in Trim(s)
    decreases |s|
  {
    if |s| > 0 && IsSpace(s[0]) {
      TrimKeepsAbsent(s[1..], c);
    } else if |s| > 0 && IsSpace(s[|s| - 1]) {
      TrimKeepsAbsent(s[..|s| - 1], c);
    }
  }

  /** On submit: split on commas, trim each piece, drop the empty ones. At
      most one skill more than there are commas comes out, and each is a
      non-empty, trimmed, comma-free string. */
  function ParseSkills(text: string): (r: seq<string>)
    ensures |r| <= Occurrences(text, ',') + 1
    ensures forall s :: s in r ==> s != "" && IsTrimmed(s) && ',' !in s
    ensures forall s :: s in r <==> s != "" && exists p :: p in Split(text, ',') && Trim(p) == s
  {
    var pieces := Split(text, ',');
    SplitCount(text, ',');
    var trimmed := TrimAll(pieces);
    forall i | 0 <= i < |pieces| ensures ',' !in trimmed[i] {
      TrimKeepsAbsent(pieces[i], ',');
    }
    assert forall s :: s in trimmed <==> exists p :: p in pieces && Trim(p) == s by {
      forall s | s in trimmed ensures exists p :: p in pieces && Trim(p) == s {
        var i :| 0 <= i < |trimmed| && trimmed[i] == s;
        assert pieces[i] in pieces;
      }
      forall s | exists p :: p in pieces && Trim(p) == s ensures s in trimmed {
        var p :| p in pieces && Trim(p) == s;
        var i :| 0 <= i < |pieces| && pieces[i] == p;
        assert trimmed[i] == s;
      }
    }
    NonEmpty(trimmed)
  }

  /** Joining with ", " is joining with "," after putting a space in front
      of every skill but the first. */
  lemma {:induction false} JoinCommaSpace(xs: seq<string>)
    requires |xs| >= 1
    ensures Join(xs, ", ") == Join([xs[0]] + Spaced(xs[1..]), ",")
  {
    if |xs| > 1 {
      JoinCommaSpace(xs[1..]);
      var ys := [xs[0]] + Spaced(xs[1..]);
      assert ys[1..] == [" " + xs[1]] + Spaced(xs[2..]);
      var zs := [xs[1]] + Spaced(xs[2..]);
      assert Join(ys[1..], ",") == " " + Join(zs, ",") by {
        JoinSpacedHead(xs[1], Spaced(xs[2..]));
      }
      assert xs[1..][1..] == xs[2..];
    }
  }

  /** A space in front of every piece. */
  function Spaced(xs: seq<string>): (r: seq<string>)
    ensures |r| == |xs|
    ensures forall i :: 0 <= i < |r| ==> r[i] == " " + xs[i]
  {
    if |xs| == 0 then [] else [" " + xs[0]] + Spaced(xs[1..])
  }

  /** Putting a space in front of the first piece puts it in front of the join. */
  lemma JoinSpacedHead(x: string, rest: seq<string>)
    ensures Join([" " + x] + rest, ",") == " " + Join([x] + rest, ",")
  {
    if |rest| > 0 {
      assert ([" " + x] + rest)[1..] == rest;
      assert ([x] + rest)[1..] == rest;
    }
  }

  /** The initial text splits at its commas into the first skill and the
      others, each with the space the join put before it. */
  lemma SkillsTextSplits(skills: seq<string>)
    requires |skills| >= 1
    requires forall i :: 0 <= i < |skills| ==> ',' !in skills[i]
    ensures Split(SkillsText(skills), ',') == [skills[0]] + Spaced(skills[1..])
  {
    var ys := [skills[0]] + Spaced(skills[1..]);
    JoinCommaSpace(skills);
    forall i | 0 <= i < |ys| ensures ',' !in ys[i] {
      if i > 0 {
        assert ys[i] == " " + skills[i];
      }
    }
    SplitJoin(ys, ',');
  }

  /** Trimming those pieces gives back the trimmed skills. */
  lemma TrimSpacedSkills(skills: seq<string>)
    requires |skills| >= 1
    requires forall i :: 0 <= i < |skills| ==> skills[i] != "" && IsTrimmed(skills[i])
    ensures TrimAll([skills[0]] + Spaced(skills[1..])) == skills
  {
    var ys := [skills[0]] + Spaced(skills[1..]);
    var trimmed := TrimAll(ys);
    forall i | 0 <= i < |ys| ensures trimmed[i] == skills[i] {
      if i == 0 {
        TrimOfTrimmed(skills[0]);
      } else {
        assert ys[i] == " " + skills[i];
        TrimSpacePrefix(" ", skills[i]);
      }
    }
  }

  /** Submitting the initial text unchanged gives back the same skills, when
      each skill is non-empty, trimmed and free of commas. */
  lemma ParseSkillsText(skills: seq<string>)
    requires forall i :: 0 <= i < |skills| ==> skills[i] != "" && IsTrimmed(skills[i]) && ',' !in skills[i]
    ensures ParseSkills(SkillsText(skills)) == skills
  {
    if |skills| == 0 {
      assert Split("", ',') == [""];
    } else {
      SkillsTextSplits(skills);
      TrimSpacedSkills(skills);
      NonEmptyKeepsAll(skills);
    }
  }

  /** Dropping empty pieces from a list without any changes nothing. */
  lemma {:induction false} NonEmptyKeepsAll(pieces: seq<string>)
    requires forall i :: 0 <= i < |pieces| ==> pieces[i] != ""
    ensures NonEmpty(pieces) == pieces
  {
    if |pieces| > 0 {
      NonEmptyKeepsAll(pieces[1..]);
    }
  }

  /** The payload of the submit: name and bio as typed, skills parsed. */
  datatype Payload = Payload(name: string, bio: string, skills: seq<string>)

  function Submit(name: string, bio: string, skillsText: string): (p: Payload)
    ensures p.name == name && p.bio == bio
    ensures forall s :: s in p.skills ==> s != "" && IsTrimmed(s)
  {
    Payload(name, bio, ParseSkills(skillsText))
  }
}
