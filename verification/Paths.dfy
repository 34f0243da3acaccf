/** Script paths (`src/capability.rs`, `FilesystemTarget::parse`) and the canonical labels they are authorised
    under (`src/builtin_core.rs`, `canonical_resource_label`): which spellings name which target, and the label as
    the one spelling that reads back to every target. */
module Paths {

  datatype PathError =
    | Empty | ContainsNul | BackslashSeparator | InvalidMountName | Absolute
    | EmptyComponent | DotComponent | ParentComponent | ColonInComponent

  datatype Target = Target(mount: string, components: seq<string>)

  datatype Parse = Read(target: Target) | Refused(error: PathError)

  // ----- Names -----

  predicate Alphabetic(c: char) { 'a' <= c <= 'z' || 'A' <= c <= 'Z' }

  predicate NameChar(c: char) { Alphabetic(c) || '0' <= c <= '9' || c == '_' || c == '-' }

  /** At most 32 characters, all of them of one byte. */
  predicate MountName(s: string) {
    |s| > 0 && Alphabetic(s[0]) && |s| <= 32 && forall c :: c in s ==> NameChar(c)
  }

  predicate HasDrivePrefix(body: string) { |body| >= 2 && Alphabetic(body[0]) && body[1] == ':' }

  /** A component that stays below its directory on every platform. */
  predicate Portable(c: string) {
    && c != "" && c != "." && c != ".."
    && '/' !in c && '\\' !in c && '\0' !in c && ':' !in c
  }

  predicate WellFormed(t: Target) {
    MountName(t.mount) && forall c :: c in t.components ==> Portable(c)
  }

  // ----- Slashes -----

  /** Where the first slash is, or the end. */
  function Slash(s: string): (r: nat)
    ensures r <= |s| && '/' !in s[..r]
    ensures r < |s| ==> s[r] == '/'
  {
    if s == [] || s[0] == '/' then 0
    else
      var r := 1 + Slash(s[1..]);
      assert s[..r] == [s[0]] + s[1..][..r - 1];
      r
  }

  function Split(s: string): (r: seq<string>)
    ensures |r| > 0
    decreases |s|
  {
    var i := Slash(s);
    if i == |s| then [s] else [s[..i]] + Split(s[i + 1..])
  }

  function Join(cs: seq<string>): string
    requires |cs| > 0
  {
    if |cs| == 1 then cs[0] else cs[0] + "/" + Join(cs[1..])
  }

  lemma {:induction false} JoinSplit(s: string)
    ensures Join(Split(s)) == s
    decreases |s|
  {
    var i := Slash(s);
    if i < |s| {
      JoinSplit(s[i + 1..]);
      assert Split(s)[1..] == Split(s[i + 1..]);
      assert s == s[..i] + "/" + s[i + 1..];
    }
  }

  lemma {:induction false} SplitPieces(s: string, c: string)
    requires c in Split(s)
    ensures '/' !in c
    ensures forall x :: x in c ==> x in s
    decreases |s|
  {
    hide Slash;
    var i := Slash(s);
    if i == |s| {
      assert Split(s) == [s] && s[..i] == s;
    } else {
      assert Split(s) == [s[..i]] + Split(s[i + 1..]);
      if c != s[..i] {
        SplitPieces(s[i + 1..], c);
      }
    }
  }

  lemma {:induction false} SlashIs(a: string, b: string)
    requires '/' !in a && (b == [] || b[0] == '/')
    ensures Slash(a + b) == |a|
  {
    if a == [] {
      assert a + b == b;
    } else {
      assert a[0] in a;
      assert (a + b)[1..] == a[1..] + b;
      SlashIs(a[1..], b);
    }
  }

  lemma {:induction false} SplitJoin(cs: seq<string>)
    requires |cs| > 0 && forall c :: c in cs ==> '/' !in c
    ensures Split(Join(cs)) == cs
  {
    if |cs| == 1 {
      SlashIs(cs[0], []);
      assert cs[0] + [] == cs[0];
    } else {
      var rest := "/" + Join(cs[1..]);
      assert Join(cs) == cs[0] + rest;
      SlashIs(cs[0], rest);
      assert Join(cs)[|cs[0]| + 1..] == Join(cs[1..]) && Join(cs)[..|cs[0]|] == cs[0];
      SplitJoin(cs[1..]);
    }
  }

  lemma {:induction false} JoinChars(cs: seq<string>, x: char)
    requires |cs| > 0 && x in Join(cs)
    ensures x == '/' || exists c :: c in cs && x in c
  {
    if |cs| > 1 && x !in cs[0] && x != '/' {
      assert Join(cs) == cs[0] + "/" + Join(cs[1..]);
      JoinChars(cs[1..], x);
    } else if |cs| == 1 {
      assert x in cs[0];
    }
  }

  // ----- Reading a path -----

  function ComponentError(c: string): (r: seq<PathError>)
    ensures |r| <= 1
  {
    if c == "" then [EmptyComponent]
    else if c == "." then [DotComponent]
    else if c == ".." then [ParentComponent]
    else if ':' in c then [ColonInComponent]
    else []
  }

  /** The complaints of all components, in order. */
  function Complaints(cs: seq<string>): seq<PathError> {
    if cs == [] then [] else ComponentError(cs[0]) + Complaints(cs[1..])
  }

  /** The mount and the path under it that a spelling stands for. */
  function Divided(s: string): (string, string)
    requires s != ""
  {
    if s[0] != '@' then ("default", s)
    else
      var rest := s[1..];
      var i := Slash(rest);
      if i == |rest| then (rest, "") else (rest[..i], rest[i + 1..])
  }

  function Components(body: string): seq<string> { if body == "" then [] else Split(body) }

  /** What a spelling reads as: the first complaint that applies, else a target. */
  function Parsed(s: string): Parse {
    if s == "" then Refused(Empty)
    else if '\0' in s then Refused(ContainsNul)
    else if '\\' in s then Refused(BackslashSeparator)
    else
      var (mount, body) := Divided(s);
      if !MountName(mount) then Refused(InvalidMountName)
      else if (body != "" && body[0] == '/') || HasDrivePrefix(body) then Refused(Absolute)
      else
        var complaints := Complaints(Components(body));
        if complaints != [] then Refused(complaints[0]) else Read(Target(mount, Components(body)))
  }

  lemma {:induction false} ComplaintsAppend(a: seq<string>, b: seq<string>)
    ensures Complaints(a + b) == Complaints(a) + Complaints(b)
  {
    hide ComponentError;
    if a == [] {
      assert a + b == b;
    } else {
      var e, x, y := ComponentError(a[0]), Complaints(a[1..]), Complaints(b);
      ComplaintsAppend(a[1..], b);
      assert (a + b)[1..] == a[1..] + b;
      assert e + (x + y) == (e + x) + y;
    }
  }

  // ----- Labels and spellings -----

  /** The mark, the mount, and behind a slash the components. */
  function Label(t: Target): string {
    "@" + t.mount + if t.components == [] then "" else "/" + Join(t.components)
  }

  /** The ways to write a target: its label; for a mount's root, also with a slash at the end; for a place in the
      default mount, also the bare components, unless they would begin with the mark of a mount. */
  predicate Spells(s: string, t: Target) {
    || s == Label(t)
    || (t.components == [] && s == "@" + t.mount + "/")
    || (t.mount == "default" && t.components != [] && s == Join(t.components) && s != "" && s[0] != '@')
  }

  /** A path is accepted exactly when it spells a well-formed target, and is read as that one. */
  lemma Accepted(s: string, t: Target)
    ensures Parsed(s) == Read(t) <==> WellFormed(t) && Spells(s, t)
  {
    if Parsed(s) == Read(t) {
      AcceptedSpells(s, t);
    }
    if WellFormed(t) && Spells(s, t) {
      SpelledAccepted(s, t);
    }
  }

  lemma {:induction false} NoComplaints(cs: seq<string>)
    ensures Complaints(cs) == [] <==> forall c :: c in cs ==> ComponentError(c) == []
  {
    if cs != [] {
      NoComplaints(cs[1..]);
    }
  }

  /** Dividing a marked path undoes writing the mark, the mount and what follows it. */
  lemma DividedMarked(mount: string, end: string)
    requires '/' !in mount && (end == "" || end[0] == '/')
    ensures Divided("@" + mount + end) == (mount, if end == "" then "" else end[1..])
  {
    hide Slash;
    var s := "@" + mount + end;
    var rest := mount + end;
    assert s[1..] == rest;
    SlashIs(mount, end);
    if end == "" {
      assert rest == mount;
    } else {
      assert rest[..|mount|] == mount && rest[|mount| + 1..] == end[1..];
    }
  }

  lemma DividedBack(s: string)
    requires s != "" && s[0] == '@'
    ensures
      var (mount, body) := Divided(s);
      s == "@" + mount + "/" + body || (s == "@" + mount && body == "")
  {
    hide Slash;
    var rest := s[1..];
    var i := Slash(rest);
    assert s == "@" + rest;
    if i < |rest| {
      assert rest == rest[..i] + "/" + rest[i + 1..];
    }
  }

  lemma AcceptedWellFormed(s: string, t: Target)
    requires Parsed(s) == Read(t)
    ensures WellFormed(t)
  {
    hide Split, Join, Complaints, Slash;
    var (mount, body) := Divided(s);
    NoComplaints(Components(body));
    if body != "" {
      forall c | c in t.components
        ensures Portable(c)
      {
        SplitPieces(body, c);
        assert ComponentError(c) == [];
        DividedChars(s);
      }
    }
  }

  lemma DividedChars(s: string)
    requires s != ""
    ensures forall x :: x in Divided(s).1 ==> x in s
  {
    hide Slash;
  }

  lemma AcceptedSpells(s: string, t: Target)
    requires Parsed(s) == Read(t)
    ensures WellFormed(t) && Spells(s, t)
  {
    hide Split, Join, Complaints, Slash, Divided, MountName, Portable, ComponentError;
    AcceptedWellFormed(s, t);
    var (mount, body) := Divided(s);
    if body != "" {
      JoinSplit(body);
    }
    if s[0] == '@' {
      DividedBack(s);
      assert "@" + mount + "/" + body == "@" + mount + ("/" + body);
      assert "@" + mount == "@" + mount + "";
    } else {
      Unmarked(s);
    }
  }

  lemma Unmarked(s: string)
    requires s != "" && s[0] != '@'
    ensures Divided(s) == ("default", s)
  {
  }

  lemma SpelledDivided(s: string, t: Target)
    requires WellFormed(t) && Spells(s, t)
    ensures s != "" && Divided(s) == (t.mount, if t.components == [] then "" else Join(t.components))
  {
    hide Join, Divided, Slash, Portable;
    if t.components == [] {
      DividedMarked(t.mount, "");
      DividedMarked(t.mount, "/");
    } else {
      var body := Join(t.components);
      DividedMarked(t.mount, "/" + body);
      assert ("/" + body)[1..] == body;
      if s != Label(t) {
        Unmarked(s);
      }
    }
  }

  lemma SpelledAccepted(s: string, t: Target)
    requires WellFormed(t) && Spells(s, t)
    ensures Parsed(s) == Read(t)
  {
    hide Split, Join, Complaints, Slash, Divided, MountName, Spells, HasDrivePrefix;
    SpelledDivided(s, t);
    SpelledChars(s, t);
    NoComplaints(t.components);
    assert !HasDrivePrefix("") by {
      NoDrive();
    }
    if t.components != [] {
      SplitJoin(t.components);
      JoinStart(t.components);
    }
  }

  lemma NoDrive()
    ensures !HasDrivePrefix("")
  {
  }

  lemma SpelledChars(s: string, t: Target)
    requires WellFormed(t) && Spells(s, t)
    ensures '\0' !in s && '\\' !in s && s != ""
  {
    hide Join;
    if t.components != [] {
      if '\0' in Join(t.components) {
        JoinChars(t.components, '\0');
      }
      if '\\' in Join(t.components) {
        JoinChars(t.components, '\\');
      }
    }
  }

  /** Joined components begin neither with a slash nor with a drive. */
  lemma JoinStart(cs: seq<string>)
    requires cs != [] && forall c :: c in cs ==> Portable(c)
    ensures Join(cs) != "" && Join(cs)[0] != '/' && !HasDrivePrefix(Join(cs))
  {
    var c := cs[0];
    assert c in cs;
    assert c <= Join(cs);
    assert c[0] in c;
    if |c| > 1 {
      assert c[1] in c;
    } else if |cs| > 1 {
      assert Join(cs)[1] == '/';
    }
  }

  // ----- Labels name targets -----

  /** Whatever is read, its label reads back as the same target. */
  lemma LabelReadsBack(s: string)
    requires Parsed(s).Read?
    ensures Parsed(Label(Parsed(s).target)) == Parsed(s)
  {
    var t := Parsed(s).target;
    Accepted(s, t);
    Accepted(Label(t), t);
  }

  /** Two targets with one label are the same target, so authorising a label authorises one place. */
  lemma LabelInjective(t: Target, u: Target)
    requires WellFormed(t) && WellFormed(u) && Label(t) == Label(u)
    ensures t == u
  {
    Accepted(Label(t), t);
    Accepted(Label(u), u);
  }

  /** Two paths name the same place exactly when their labels are equal, and a path's label never depends on which
      of its spellings was written. */
  lemma SameLabelSamePlace(s: string, z: string)
    requires Parsed(s).Read? && Parsed(z).Read?
    ensures Label(Parsed(s).target) == Label(Parsed(z).target) <==> Parsed(s) == Parsed(z)
  {
    LabelReadsBack(s);
    LabelReadsBack(z);
  }

  /** Every component of an accepted path is portable. */
  lemma ComponentsPortable(s: string, k: nat)
    requires Parsed(s).Read? && k < |Parsed(s).target.components|
    ensures Portable(Parsed(s).target.components[k])
  {
    var t := Parsed(s).target;
    Accepted(s, t);
    assert t.components[k] in t.components;
  }

  // ----- Refusals -----

  /** What a spelling stands for, told without dividing it: a mount behind the mark, with or without a body behind a
      slash, or a body in the default mount. */
  predicate Stands(s: string, mount: string, body: string) {
    || ('/' !in mount && s == "@" + mount && body == "")
    || ('/' !in mount && s == "@" + mount + "/" + body)
    || (s != "" && s[0] != '@' && mount == "default" && body == s)
  }

  predicate Rooted(body: string) { (body != "" && body[0] == '/') || HasDrivePrefix(body) }

  /** What is wrong with a component. */
  predicate Faulty(c: string, e: PathError) {
    match e
    case EmptyComponent => |c| == 0
    case DotComponent => |c| == 1 && c[0] == '.'
    case ParentComponent => |c| == 2 && c[0] == '.' == c[1]
    case ColonInComponent => exists i :: 0 <= i < |c| && c[i] == ':'
    case _ => false
  }

  lemma FaultIsComplaint(c: string)
    ensures forall e :: ComponentError(c) == [e] <==> Faulty(c, e)
    ensures ComponentError(c) == [] <==> forall e :: !Faulty(c, e)
  {
    assert c == "." <==> |c| == 1 && c[0] == '.';
    assert c == ".." <==> |c| == 2 && c[0] == '.' == c[1];
    if c == "" {
      assert Faulty(c, EmptyComponent);
    } else if c == "." {
      assert Faulty(c, DotComponent);
    } else if c == ".." {
      assert Faulty(c, ParentComponent);
    } else if ':' in c {
      assert Faulty(c, ColonInComponent);
    }
  }

  /** The first component with a fault, and the fault. */
  ghost predicate Complains(cs: seq<string>, k: nat, e: PathError) {
    k < |cs| && Faulty(cs[k], e) && forall j, f :: 0 <= j < k ==> !Faulty(cs[j], f)
  }

  predicate Plain(s: string) { s != "" && '\0' !in s && '\\' !in s }

  /** When a path is refused with an error. */
  ghost predicate Deserves(s: string, e: PathError) {
    match e
    case Empty => s == ""
    case ContainsNul => '\0' in s
    case BackslashSeparator => '\0' !in s && '\\' in s
    case InvalidMountName => Plain(s) && exists m, b :: Stands(s, m, b) && !MountName(m)
    case Absolute => Plain(s) && exists m, b :: Stands(s, m, b) && MountName(m) && Rooted(b)
    case _ =>
      Plain(s) && exists m, b, k: nat :: Stands(s, m, b) && MountName(m) && !Rooted(b) && Complains(Components(b), k, e)
  }

  lemma DividedStands(s: string, mount: string, body: string)
    requires s != ""
    ensures Stands(s, mount, body) <==> Divided(s) == (mount, body)
  {
    hide Stands, Divided;
    DivisionStands(s);
    if Stands(s, mount, body) {
      StandsDivided(s, mount, body);
    }
  }

  lemma DivisionStands(s: string)
    requires s != ""
    ensures Stands(s, Divided(s).0, Divided(s).1)
  {
    hide Slash;
    if s[0] == '@' {
      var rest := s[1..];
      assert s == "@" + rest;
      if Slash(rest) < |rest| {
        assert rest == rest[..Slash(rest)] + "/" + rest[Slash(rest) + 1..];
      } else {
        assert rest[..Slash(rest)] == rest;
      }
    }
  }

  lemma StandsDivided(s: string, mount: string, body: string)
    requires s != "" && Stands(s, mount, body)
    ensures Divided(s) == (mount, body)
  {
    hide Slash, Divided;
    if s[0] != '@' {
      Unmarked(s);
    } else if s == "@" + mount && body == "" && '/' !in mount {
      DividedMarked(mount, "");
      assert "@" + mount + "" == s;
    } else {
      DividedMarked(mount, "/" + body);
      assert "@" + mount + ("/" + body) == s && ("/" + body)[1..] == body;
    }
  }

  lemma {:induction false} FirstComplaint(cs: seq<string>, e: PathError)
    ensures Complaints(cs) != [] && Complaints(cs)[0] == e <==> exists k: nat :: Complains(cs, k, e)
    decreases |cs|
  {
    hide ComponentError, Faulty;
    if cs != [] {
      FaultIsComplaint(cs[0]);
      FirstComplaint(cs[1..], e);
      if ComponentError(cs[0]) == [] {
        if k: nat :| Complains(cs[1..], k, e) {
          ComplainsLater(cs, k, e);
        }
        if k: nat :| Complains(cs, k, e) {
          assert k > 0;
          ComplainsSooner(cs, k - 1, e);
        }
      } else {
        if Complaints(cs)[0] == e {
          assert Complains(cs, 0, e);
        }
        if k: nat :| Complains(cs, k, e) {
          assert k == 0;
        }
      }
    }
  }

  lemma ComplainsLater(cs: seq<string>, k: nat, e: PathError)
    requires cs != [] && Complains(cs[1..], k, e) && forall f :: !Faulty(cs[0], f)
    ensures Complains(cs, k + 1, e)
  {
    hide Faulty;
    forall j, f | 0 <= j < k + 1
      ensures !Faulty(cs[j], f)
    {
      if j > 0 {
        assert cs[j] == cs[1..][j - 1];
      }
    }
  }

  lemma ComplainsSooner(cs: seq<string>, k: nat, e: PathError)
    requires cs != [] && Complains(cs, k + 1, e)
    ensures Complains(cs[1..], k, e)
  {
    hide Faulty;
    forall j, f | 0 <= j < k
      ensures !Faulty(cs[1..][j], f)
    {
      assert cs[1..][j] == cs[j + 1];
    }
  }

  lemma ComplaintKinds(c: string)
    ensures ComponentError(c) == [] || ComponentError(c) in {[EmptyComponent], [DotComponent], [ParentComponent], [ColonInComponent]}
  {
  }

  /** A path is refused with exactly the error it deserves. */
  lemma RefusedAsDeserved(s: string, e: PathError)
    ensures Parsed(s) == Refused(e) <==> Deserves(s, e)
  {
    hide Divided, Complaints, ComponentError, MountName, HasDrivePrefix, Split, Stands, Faulty;
    if Plain(s) {
      var (mount, body) := Divided(s);
      forall m, b
        ensures Stands(s, m, b) <==> m == mount && b == body
      {
        DividedStands(s, m, b);
      }
      assert Stands(s, mount, body);
      FirstComplaint(Components(body), e);
      if k: nat :| Complains(Components(body), k, e) {
        FaultIsComplaint(Components(body)[k]);
        ComplaintKinds(Components(body)[k]);
      }
    }
  }

  // ----- The two operations -----

  lemma Explained(s: string)
    ensures forall t :: Parsed(s) == Read(t) <==> WellFormed(t) && Spells(s, t)
    ensures forall e :: Parsed(s) == Refused(e) <==> Deserves(s, e)
  {
    hide Parsed, Deserves, Spells, WellFormed;
    forall t
      ensures Parsed(s) == Read(t) <==> WellFormed(t) && Spells(s, t)
    {
      Accepted(s, t);
    }
    forall e
      ensures Parsed(s) == Refused(e) <==> Deserves(s, e)
    {
      RefusedAsDeserved(s, e);
    }
  }

  /** Takes over the components one by one, up to the first with a complaint. */
  method CheckComponents(pieces: seq<string>) returns (failed: seq<PathError>, components: seq<string>)
    ensures failed == [] <==> Complaints(pieces) == []
    ensures failed != [] ==> failed[0] == Complaints(pieces)[0]
    ensures failed == [] ==> components == pieces
  {
    components := [];
    for i := 0 to |pieces|
      invariant components == pieces[..i]
      invariant Complaints(pieces[..i]) == []
    {
      var c := pieces[i];
      assert pieces == pieces[..i] + pieces[i..] && pieces[..i + 1] == pieces[..i] + [c];
      ComplaintsAppend(pieces[..i], pieces[i..]);
      ComplaintsAppend(pieces[..i], [c]);
      assert Complaints([c]) == ComponentError(c) + Complaints([c][1..]);
      if c == "" {
        return [EmptyComponent], [];
      } else if c == "." {
        return [DotComponent], [];
      } else if c == ".." {
        return [ParentComponent], [];
      } else if ':' in c {
        return [ColonInComponent], [];
      } else {
        components := components + [c];
      }
    }
    assert pieces[..|pieces|] == pieces;
    failed := [];
  }

  /** `MountName::new`: an ASCII letter, then up to 31 more ASCII letters, digits, underscores and hyphens. */
  method CheckMountName(s: string) returns (valid: bool)
    ensures valid <==> MountName(s)
  {
    if |s| == 0 || !('A' <= s[0] <= 'Z' || 'a' <= s[0] <= 'z') || |s| > 32 {
      return false;
    }
    for i := 0 to |s|
      invariant forall j :: 0 <= j < i ==> NameChar(s[j])
    {
      var c := s[i];
      if !('A' <= c <= 'Z' || 'a' <= c <= 'z' || '0' <= c <= '9' || c == '_' || c == '-') {
        assert s[i] in s;
        return false;
      }
    }
    return true;
  }

  /** `has_drive_prefix`. */
  method CheckDrivePrefix(body: string) returns (found: bool)
    ensures found <==> HasDrivePrefix(body)
  {
    if |body| < 2 || body[1] != ':' {
      return false;
    }
    return 'A' <= body[0] <= 'Z' || 'a' <= body[0] <= 'z';
  }

  /** Reads a path: exactly the spellings of well-formed targets are read, each as its target, and everything else is
      refused with the error it deserves. */
  method ParsePath(s: string) returns (r: Parse)
    ensures r == Parsed(s)
    ensures forall t :: r == Read(t) <==> WellFormed(t) && Spells(s, t)
    ensures forall e :: r == Refused(e) <==> Deserves(s, e)
  {
    hide Deserves, Spells, WellFormed, Split;
    Explained(s);
    if s == "" {
      return Refused(Empty);
    }
    if '\0' in s {
      return Refused(ContainsNul);
    }
    if '\\' in s {
      return Refused(BackslashSeparator);
    }
    var mount, body := "default", s;
    if s[0] == '@' {
      var rest := s[1..];
      var i := Slash(rest);
      if i < |rest| {
        mount, body := rest[..i], rest[i + 1..];
      } else {
        mount, body := rest, "";
      }
    }
    var valid := CheckMountName(mount);
    if !valid {
      return Refused(InvalidMountName);
    }
    if body != "" && body[0] == '/' {
      return Refused(Absolute);
    }
    var drive := CheckDrivePrefix(body);
    if drive {
      return Refused(Absolute);
    }
    var components: seq<string> := [];
    if body != "" {
      var failed;
      failed, components := CheckComponents(Split(body));
      if failed != [] {
        return Refused(failed[0]);
      }
    }
    return Read(Target(mount, components));
  }

  /** Every component behind a slash of its own. */
  function Slashed(cs: seq<string>): string {
    if cs == [] then "" else Slashed(cs[..|cs| - 1]) + "/" + cs[|cs| - 1]
  }

  lemma {:induction false} SlashedIsJoin(cs: seq<string>)
    requires cs != []
    ensures Slashed(cs) == "/" + Join(cs)
  {
    if |cs| > 1 {
      var init, last := cs[..|cs| - 1], cs[|cs| - 1];
      SlashedIsJoin(init);
      JoinSnoc(init, last);
      assert init + [last] == cs;
    }
  }

  lemma {:induction false} JoinSnoc(cs: seq<string>, c: string)
    requires cs != []
    ensures Join(cs + [c]) == Join(cs) + "/" + c
  {
    assert (cs + [c])[1..] == cs[1..] + [c];
    if |cs| > 1 {
      JoinSnoc(cs[1..], c);
    } else {
      assert Join(cs[1..] + [c]) == c;
    }
  }

  /** Writes the label of a target, the spelling that reads back as it. */
  method CanonicalLabel(t: Target) returns (written: string)
    ensures written == Label(t)
    ensures WellFormed(t) ==> Parsed(written) == Read(t)
    ensures WellFormed(t) ==> forall u :: WellFormed(u) && Label(u) == written ==> u == t
  {
    hide Parsed, WellFormed, Join;
    written := "@";
    written := written + t.mount;
    for i := 0 to |t.components|
      invariant written == "@" + t.mount + Slashed(t.components[..i])
    {
      assert t.components[..i + 1][..i] == t.components[..i];
      written := written + "/";
      written := written + t.components[i];
    }
    assert t.components[..|t.components|] == t.components;
    if t.components != [] {
      SlashedIsJoin(t.components);
    }
    Accepted(written, t);
    forall u | WellFormed(t) && WellFormed(u) && Label(u) == written
      ensures u == t
    {
      LabelInjective(t, u);
    }
  }
}
