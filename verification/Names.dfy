/** The names the resolver goes by: what a stem is, which file a role means, which import names a
    part, and where a path is looked up. */
module Names {
  import opened Text
  import opened Paths
  import opened Tasks
  import opened Rendering
  import opened TaskParts
  import opened Chain
  import opened PartSplit

  // Stems

  lemma {:induction false} LastDotIsLast(s: string)
    ensures forall i :: LastDot(s) < i < |s| ==> s[i] != '.'
    ensures LastDot(s) >= 0 ==> s[LastDot(s)] == '.'
  {
    if s != "" && s[|s| - 1] != '.' { LastDotIsLast(s[..|s| - 1]); }
  }

  /** A name of a base, a dot and a suffix without one has the base as its stem. */
  lemma {:induction false} StemOf(base: string, suffix: string)
    requires base != "" && suffix != "" && '.' !in suffix
    ensures Stem(base + "." + suffix) == base
  {
    var name := base + "." + suffix;
    LastDotIsLast(name);
    assert name[|base|] == '.';
    forall i | |base| < i < |name| ensures name[i] != '.' { assert name[i] == suffix[i - |base| - 1]; }
    assert LastDot(name) == |base|;
  }

  /** A name is its own stem exactly when it has no dot, or only one that leads it, or it ends
      in a dot. */
  lemma {:induction false} OwnStem(name: string)
    ensures Stem(name) == name <==> name == "" || name[|name| - 1] == '.' || '.' !in name[1..]
  {
    LastDotIsLast(name);
    if name != "" {
      assert forall i :: 0 < i < |name| ==> name[i] == name[1..][i - 1];
      assert forall i :: 0 <= i < |name| - 1 ==> name[1..][i] == name[i + 1];
    }
  }

  // Roles

  /** The task files of a role. */
  function RoleTasks(w: Repo, role: Name): Dir { w.root + ["ansible", "roles", role, "tasks"] }

  lemma {:induction false} RoleStands(w: Repo, role: Name)
    ensures RoleDir(w, role) == w.root + ["ansible", "roles", role]
    ensures RoleExists(w, role) <==> exists file :: file in w.files && w.root + ["ansible", "roles", role] < file
  {
    PieceAnchors(Roles(w), role);
    assert Roles(w) + [role] == w.root + ["ansible", "roles", role];
  }

  lemma {:induction false} RoleFileIsPiece(w: Repo, role: Name, piece: Name)
    ensures RoleFile(w, role, piece)
         == RoleTasks(w, role)
            + [if piece[|Stem(piece)|..] == ".yml" || piece[|Stem(piece)|..] == ".yaml" then piece
               else Stem(piece) + ".yml"]
  {
    hide Anchor; hide Stem;
    RoleStands(w, role);
    PieceAnchors(RoleDir(w, role) + ["tasks"], piece);
    var file := RoleDir(w, role) + ["tasks"] + [piece];
    assert RoleDir(w, role) + ["tasks"] == RoleTasks(w, role) && Parent(file) == RoleTasks(w, role);
  }

  /** A task file of a role named without a suffix is the `.yml` file; one of the two suffixes
      stays as it is, and any other is replaced. */
  lemma {:induction false} RoleFileIsNamed(w: Repo, role: Name, base: string, suffix: string)
    requires base != "" && suffix != "" && '.' !in suffix && '/' !in base + "." + suffix
    ensures Normal(base + "." + suffix)
    ensures RoleFile(w, role, base + "." + suffix)
         == RoleTasks(w, role) + [if suffix == "yml" || suffix == "yaml" then base + "." + suffix else base + ".yml"]
    ensures '.' !in base ==> Normal(base) && RoleFile(w, role, base) == RoleTasks(w, role) + [base + ".yml"]
  {
    hide RoleFile; hide Stem;
    var name := base + "." + suffix;
    assert name[|name| - 1] == suffix[|suffix| - 1] && suffix[|suffix| - 1] in suffix;
    StemOf(base, suffix);
    RoleFileIsPiece(w, role, name);
    assert name[|base|..] == "." + suffix;
    assert ("." + suffix)[1..] == suffix && ".yml"[1..] == "yml" && ".yaml"[1..] == "yaml";
    if '.' !in base {
      forall c | c in base ensures c != '/' { assert c in name; }
      assert base != "." && base != ".." by { assert "."[0] == '.' && ".."[0] == '.'; }
      OwnStem(base);
      RoleFileIsPiece(w, role, base);
      assert base[|base|..] == "";
    }
  }

  /** A role's default tasks are its `main.yml`, however they are named. */
  lemma {:induction false} MainIsMain(w: Repo, role: Name)
    ensures RoleFile(w, role, "main") == RoleTasks(w, role) + ["main.yml"]
    ensures RoleFile(w, role, "main.yml") == RoleTasks(w, role) + ["main.yml"]
  {
    hide RoleFile;
    assert '.' !in "main" && '/' !in "main" + "." + "yml" && "main" + "." + "yml" == "main.yml";
    assert "main" + ".yml" == "main.yml" && '.' !in "yml";
    RoleFileIsNamed(w, role, "main", "yml");
  }

  // Parts

  /** Exactly the bare static imports of a path below the entry's own name are parts: an import
      with a condition, variables or any keyword but its name is none. */
  lemma {:induction false} PartIsBare(t: Task, dir: Dir, stem: Name, part: Dir)
    ensures Normal(stem + ".yml")
    ensures PartOf(t, dir + [stem + ".yml"]) == Some(part)
       <==> t.when == [] && t.vars == map[] && t.control == map[] && t.action.Include? && t.action.key == FqImport
            && t.action.options == None && stem + "/" <= t.action.path && part == Anchor(dir, t.action.path)
  {
    hide Anchor; hide Stem;
    assert stem + ".yml" == stem + "." + "yml" && '.' !in "yml" && (stem + ".yml")[|stem| + 1] == 'y';
    StemOf(stem, "yml");
    var entry: File := dir + [stem + ".yml"];
    assert Parent(entry) == dir;
  }

  // Where a path is looked up

  /** A path is found at the first of these that is a file: read from the directory of the file
      that holds it, of each file above it from the nearest on, the role's tasks, the playbook's
      directory. */
  lemma {:induction false} FoundIsFirst(w: Repo, path: string, at: Place)
    ensures var text, folders := Substituted(w, path, at.role),
                                 [Parent(at.here)] + Folders(w, at.chain, at.role);
            && (HasTemplate(text) ==> Find(w, path, at) == None)
            && (!HasTemplate(text) ==>
                  && (Find(w, path, at) == None <==> Absent(w, text, folders))
                  && forall k: nat :: FoundAt(w, text, folders, k) ==>
                       Find(w, path, at) == Some(Anchor(folders[k], text)))
  {
    hide Anchor; hide Find; hide HasTemplate; hide Substituted; hide FoundAt; hide Absent; hide Folders; hide Rest;
    var text, folders := Substituted(w, path, at.role), Folders(w, at.chain, at.role);
    FindParts(w, path, at);
    RestIsFirst(w, text, at.chain, at.role);
    HitIsFirst(w, text, Parent(at.here), folders);
    FirstIsFound(w, text, [Parent(at.here)] + folders);
  }

  lemma {:induction false} NoOpening(s: string, sub: string)
    requires '{' !in s && sub != "" && sub[0] == '{'
    ensures !Contains(s, sub)
  {
    SearchSkips(s, "", sub);
    assert s + "" == s;
  }

  /** Behind a text without braces, a template is not there twice. */
  lemma {:induction false} PlainBehind(p: string, rest: string, sub: string)
    requires '{' !in p && !HasTemplate(rest) && BRACES <= sub
    ensures !Contains(p + rest, sub) && !HasTemplate(p + rest)
  {
    hide Contains;
    SearchSkips(p, rest, sub);
    NoTemplateInside(rest, sub);
    BehindPlain(p, rest);
  }

  lemma {:induction false} BehindPlain(p: string, rest: string)
    requires '{' !in p
    ensures Tail(p + rest) == Tail(rest)
  {
    if p == "" {
      assert p + rest == rest;
    } else {
      BehindPlain(p[1..], rest);
      assert (p + rest)[1..] == p[1..] + rest && (p + rest)[0] == p[0];
      if |p + rest| >= 2 {
        assert Tail(p + rest) == Tail(p[1..] + rest);
      } else {
        assert rest == "" && |p| == 1 && p[1..] + rest == "";
      }
    }
  }

  const IN_PLAYBOOK: string := "{{ playbook_dir }}"
  const IN_ROLE: string := "{{ role_path }}"

  /** `{{ playbook_dir }}` becomes the playbook's directory, in whatever file or role it stands. */
  lemma {:induction false} PlaybookIsPut(w: Repo, p: string, rest: string, role: Option<Dir>)
    requires '{' !in p && !HasTemplate(rest) && PlainDir(Parent(w.playbook))
    ensures Substituted(w, p + "{{ playbook_dir }}" + rest, role) == p + Absolute(Parent(w.playbook)) + rest
    ensures !HasTemplate(p + Absolute(Parent(w.playbook)) + rest)
  {
    hide Replace; hide Absolute; hide Contains; hide Tail;
    var put := Absolute(Parent(w.playbook));
    PlainAbsolute(Parent(w.playbook));
    ReplaceFirst(p, IN_PLAYBOOK, rest, put);
    NoTemplateInside(rest, IN_PLAYBOOK);
    ReplaceNothing(rest, IN_PLAYBOOK, put);
    PlainBehind(p + put, rest, IN_ROLE);
    if role.Some? { ReplaceNothing(p + put + rest, IN_ROLE, Absolute(role.value)); }
  }

  lemma {:induction false} PlainAbsolute(d: Dir)
    requires PlainDir(d)
    ensures '{' !in Absolute(d)
  {
    if '{' in Join(d, '/') { JoinChars(d, '/', '{'); }
  }

  lemma {:induction false} RoleHasNoPlaybook(rest: string)
    requires !HasTemplate(rest)
    ensures !Contains(IN_ROLE + rest, IN_PLAYBOOK)
  {
    hide Contains; hide Tail;
    var inner := " role_path }}";
    assert IN_ROLE == "{{" + inner && IN_ROLE + rest == "{" + ("{" + (inner + rest));
    PlainBehind(inner, rest, IN_PLAYBOOK);
    var s := "{" + (inner + rest);
    assert s[1] == ' ' && IN_PLAYBOOK[1] == '{' && s[1..] == inner + rest;
    NotThere(s, IN_PLAYBOOK);
    var whole := "{" + s;
    assert whole[3] == 'r' && IN_PLAYBOOK[3] == 'p' && whole[1..] == s;
    NotThere(whole, IN_PLAYBOOK);
  }

  lemma NotThere(s: string, sub: string)
    requires s != "" && !(sub <= s) && !Contains(s[1..], sub)
    ensures !Contains(s, sub)
  {
  }

  /** `{{ role_path }}` becomes the role's directory, and stays a template outside a role. */
  lemma {:induction false} RoleIsPut(w: Repo, p: string, rest: string, role: Dir)
    requires '{' !in p && !HasTemplate(rest) && PlainDir(role)
    ensures Substituted(w, p + "{{ role_path }}" + rest, Some(role)) == p + Absolute(role) + rest
    ensures Substituted(w, p + "{{ role_path }}" + rest, None) == p + "{{ role_path }}" + rest
    ensures !HasTemplate(p + Absolute(role) + rest) && HasTemplate(p + "{{ role_path }}" + rest)
  {
    hide Replace; hide Absolute; hide Contains; hide Tail;
    PlainAbsolute(role);
    RoleHasNoPlaybook(rest);
    SearchSkips(p, IN_ROLE + rest, IN_PLAYBOOK);
    assert p + IN_ROLE + rest == p + (IN_ROLE + rest);
    ReplaceNothing(p + IN_ROLE + rest, IN_PLAYBOOK, Absolute(Parent(w.playbook)));
    ReplaceFirst(p, IN_ROLE, rest, Absolute(role));
    NoTemplateInside(rest, IN_ROLE);
    ReplaceNothing(rest, IN_ROLE, Absolute(role));
    PlainBehind(p + Absolute(role), rest, IN_ROLE);
    PartsOf(p, IN_ROLE + rest);
  }

  /** A path from the playbook's or the role's directory is found there or nowhere, wherever the
      include stands. */
  lemma {:induction false} AbsoluteIsFound(w: Repo, d: Dir, rest: string, at: Place, path: string)
    requires !("/" <= rest) && Substituted(w, path, at.role) == Absolute(d) + "/" + rest
    requires !HasTemplate(Absolute(d) + "/" + rest)
    ensures Find(w, path, at) == if Anchor(d, rest) in w.files then Some(Anchor(d, rest)) else None
  {
    hide Anchor; hide Find; hide HasTemplate; hide Substituted; hide Folders; hide Absolute;
    var text, folders := Absolute(d) + "/" + rest, [Parent(at.here)] + Folders(w, at.chain, at.role);
    forall k | 0 <= k < |folders| ensures Anchor(folders[k], text) == Anchor(d, rest) {
      AbsoluteAnchors(folders[k], d, rest);
    }
    FoundIsFirst(w, path, at);
    if Anchor(d, rest) in w.files {
      assert Anchor(folders[0], text) in w.files;
      assert FoundAt(w, text, folders, 0);
    } else {
      assert Absent(w, text, folders);
    }
  }

  lemma {:induction false} PlaybookPathIsFound(w: Repo, rest: string, at: Place)
    requires !("/" <= rest) && !HasTemplate(rest) && PlainDir(Parent(w.playbook))
    ensures var file := Anchor(Parent(w.playbook), rest);
            Find(w, "{{ playbook_dir }}/" + rest, at) == if file in w.files then Some(file) else None
  {
    hide Anchor; hide Find; hide Tail; hide Substituted; hide Absolute;
    var d := Parent(w.playbook);
    BehindPlain("/", rest);
    PlaybookIsPut(w, "", "/" + rest, at.role);
    assert "" + IN_PLAYBOOK + ("/" + rest) == "{{ playbook_dir }}/" + rest;
    assert "" + Absolute(d) + ("/" + rest) == Absolute(d) + "/" + rest;
    AbsoluteIsFound(w, d, rest, at, "{{ playbook_dir }}/" + rest);
  }

  lemma {:induction false} RolePathIsFound(w: Repo, rest: string, at: Place)
    requires !("/" <= rest) && !HasTemplate(rest) && (at.role.Some? ==> PlainDir(at.role.value))
    ensures var file := if at.role.None? then [] else Anchor(at.role.value, rest);
            Find(w, "{{ role_path }}/" + rest, at)
            == if at.role.Some? && file in w.files then Some(file) else None
  {
    hide Anchor; hide Tail; hide Substituted; hide Absolute; hide Candidates; hide FirstFile;
    BehindPlain("/", rest);
    var path := "{{ role_path }}/" + rest;
    assert "" + IN_ROLE + ("/" + rest) == path;
    if at.role.None? {
      RoleIsPut(w, "", "/" + rest, []);
    } else {
      var d := at.role.value;
      RoleIsPut(w, "", "/" + rest, d);
      assert "" + Absolute(d) + ("/" + rest) == Absolute(d) + "/" + rest;
      AbsoluteIsFound(w, d, rest, at, path);
    }
  }
}
