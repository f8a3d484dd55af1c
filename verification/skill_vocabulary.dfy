/**
 * The skill vocabulary: a fixed alias -> canonical-name table and a
 * canonical-name -> category table, both built by inverting an ordered
 * table of rows with `Map.prototype.set`, so an alias listed under several
 * canonical names resolves to the row written last.
 */
module SkillVocabulary {
  import opened Common
  import Sorting

  /** An ordered table of (owner, members) rows, in `Object.entries` order. */
  type Table = seq<(string, seq<string>)>

  /** Alias rows for programming languages, part 1. */
  const ProgrammingAliases1: Table := [
    ("javascript", ["js", "javascript", "es6", "es2015", "ecmascript", "vanilla js"]),
    ("typescript", ["ts", "typescript"]),
    ("python", ["python", "python3", "py"]),
    ("java", ["java", "core java", "j2ee", "j2se"]),
    ("csharp", ["c#", "csharp", "c sharp", ".net c#"])
  ]

  /** Alias rows for programming languages, part 2. */
  const ProgrammingAliases2: Table := [
    ("cpp", ["c++", "cpp", "c plus plus"]),
    ("c", ["c programming", "c language"]),
    ("go", ["go", "golang"]),
    ("rust", ["rust", "rustlang"]),
    ("ruby", ["ruby", "ruby on rails", "ror"])
  ]

  /** Alias rows for programming languages, part 3. */
  const ProgrammingAliases3: Table := [
    ("php", ["php", "php7", "php8"]),
    ("swift", ["swift", "swiftui"]),
    ("kotlin", ["kotlin", "kt"]),
    ("scala", ["scala"]),
    ("r", ["r programming", "r language", "rstats"])
  ]

  /** Alias rows for frontend, part 1. */
  const FrontendAliases1: Table := [
    ("react", ["react", "reactjs", "react.js", "react js"]),
    ("angular", ["angular", "angularjs", "angular.js", "ng"]),
    ("vue", ["vue", "vuejs", "vue.js", "vue3"]),
    ("nextjs", ["next", "nextjs", "next.js"]),
    ("svelte", ["svelte", "sveltekit"]),
    ("html", ["html", "html5"])
  ]

  /** Alias rows for frontend, part 2. */
  const FrontendAliases2: Table := [
    ("css", ["css", "css3", "cascading style sheets"]),
    ("sass", ["sass", "scss"]),
    ("tailwind", ["tailwind", "tailwindcss", "tailwind css"]),
    ("bootstrap", ["bootstrap", "bootstrap5"]),
    ("jquery", ["jquery", "jquery ui"])
  ]

  /** Alias rows for backend, part 1. */
  const BackendAliases1: Table := [
    ("nodejs", ["node", "nodejs", "node.js", "node js"]),
    ("express", ["express", "expressjs", "express.js"]),
    ("django", ["django", "django rest"]),
    ("flask", ["flask"]),
    ("fastapi", ["fastapi", "fast api"])
  ]

  /** Alias rows for backend, part 2. */
  const BackendAliases2: Table := [
    ("spring", ["spring", "spring boot", "springboot"]),
    ("dotnet", [".net", "dotnet", ".net core", "asp.net"]),
    ("laravel", ["laravel"]),
    ("rails", ["rails", "ruby on rails", "ror"])
  ]

  /** Alias rows for databases, part 1. */
  const DatabaseAliases1: Table := [
    ("mongodb", ["mongodb", "mongo", "mongo db"]),
    ("postgresql", ["postgresql", "postgres", "psql", "pgsql"]),
    ("mysql", ["mysql", "my sql"]),
    ("redis", ["redis"]),
    ("elasticsearch", ["elasticsearch", "elastic search", "es"])
  ]

  /** Alias rows for databases, part 2. */
  const DatabaseAliases2: Table := [
    ("sqlite", ["sqlite", "sqlite3"]),
    ("oracle", ["oracle", "oracle db", "oracledb"]),
    ("sqlserver", ["sql server", "mssql", "ms sql"]),
    ("dynamodb", ["dynamodb", "dynamo db", "aws dynamodb"]),
    ("firebase", ["firebase", "firestore"])
  ]

  /** Alias rows for cloud and DevOps, part 1. */
  const CloudAliases1: Table := [
    ("aws", ["aws", "amazon web services", "amazon aws"]),
    ("azure", ["azure", "microsoft azure", "ms azure"]),
    ("gcp", ["gcp", "google cloud", "google cloud platform"]),
    ("docker", ["docker", "containerization"]),
    ("kubernetes", ["kubernetes", "k8s", "kube"]),
    ("jenkins", ["jenkins", "jenkins ci"])
  ]

  /** Alias rows for cloud and DevOps, part 2. */
  const CloudAliases2: Table := [
    ("gitlab", ["gitlab", "gitlab ci"]),
    ("github_actions", ["github actions", "gh actions"]),
    ("terraform", ["terraform", "tf"]),
    ("ansible", ["ansible"]),
    ("linux", ["linux", "unix", "ubuntu", "centos", "debian"])
  ]

  /** Alias rows for AI / ML, part 1. */
  const AiMlAliases1: Table := [
    ("machine_learning", ["machine learning", "ml", "deep learning", "dl"]),
    ("tensorflow", ["tensorflow", "tf"]),
    ("pytorch", ["pytorch", "torch"]),
    ("nlp", ["nlp", "natural language processing"]),
    ("computer_vision", ["computer vision", "cv", "image processing"])
  ]

  /** Alias rows for AI / ML, part 2. */
  const AiMlAliases2: Table := [
    ("data_science", ["data science", "data analytics"]),
    ("pandas", ["pandas"]),
    ("numpy", ["numpy"]),
    ("scikit_learn", ["scikit-learn", "sklearn", "scikit learn"])
  ]

  /** Alias rows for tools and others, part 1. */
  const ToolAliases1: Table := [
    ("git", ["git", "version control", "github", "gitlab", "bitbucket"]),
    ("rest_api", ["rest", "restful", "rest api", "restful api"]),
    ("graphql", ["graphql", "graph ql"]),
    ("websocket", ["websocket", "websockets", "socket.io"]),
    ("agile", ["agile", "scrum", "kanban"])
  ]

  /** Alias rows for tools and others, part 2. */
  const ToolAliases2: Table := [
    ("jira", ["jira", "atlassian jira"]),
    ("figma", ["figma"]),
    ("testing", ["testing", "unit testing", "jest", "mocha", "pytest"]),
    ("ci_cd", ["ci/cd", "cicd", "continuous integration", "continuous deployment"])
  ]

  /**
   * `skillAliases`: canonical name -> spelling variants, in declaration
   * order. The rows are split into chunks of at most six so that lookups in
   * them can be evaluated one chunk at a time.
   */
  const SkillAliases: Table :=
    ProgrammingAliases1 + ProgrammingAliases2 + ProgrammingAliases3 + FrontendAliases1 +
    FrontendAliases2 + BackendAliases1 + BackendAliases2 + DatabaseAliases1 + DatabaseAliases2 +
    CloudAliases1 + CloudAliases2 + AiMlAliases1 + AiMlAliases2 + ToolAliases1 + ToolAliases2

  const ProgrammingSkills: seq<string> :=
    ["javascript", "typescript", "python", "java", "csharp", "cpp", "c", "go", "rust", "ruby", "php", "swift", "kotlin", "scala", "r"]
  const FrontendSkills: seq<string> :=
    ["react", "angular", "vue", "nextjs", "svelte", "html", "css", "sass", "tailwind", "bootstrap", "jquery"]
  const BackendSkills: seq<string> :=
    ["nodejs", "express", "django", "flask", "fastapi", "spring", "dotnet", "laravel", "rails"]
  const DatabaseSkills: seq<string> :=
    ["mongodb", "postgresql", "mysql", "redis", "elasticsearch", "sqlite", "oracle", "sqlserver", "dynamodb", "firebase"]
  const CloudSkills: seq<string> :=
    ["aws", "azure", "gcp", "docker", "kubernetes", "jenkins", "gitlab", "github_actions", "terraform", "ansible", "linux"]
  const AiMlSkills: seq<string> :=
    ["machine_learning", "tensorflow", "pytorch", "nlp", "computer_vision", "data_science", "pandas", "numpy", "scikit_learn"]
  const ToolSkills: seq<string> :=
    ["git", "rest_api", "graphql", "websocket", "agile", "jira", "figma", "testing", "ci_cd"]

  /** `skillCategories`: category -> canonical names. */
  const SkillCategories: Table := [
    ("programming", ProgrammingSkills),
    ("frontend", FrontendSkills),
    ("backend", BackendSkills),
    ("database", DatabaseSkills),
    ("cloud", CloudSkills),
    ("ai_ml", AiMlSkills),
    ("tools", ToolSkills)
  ]

  const OtherCategory: string := "other"

  // ---------------------------------------------------------------------------
  // Tables
  // ---------------------------------------------------------------------------

  /** The owners of a table, in row order. */
  function Owners(t: Table): (r: seq<string>)
    ensures |r| == |t|
    ensures forall i :: 0 <= i < |t| ==> r[i] == t[i].0
  {
    if t == [] then [] else [t[0].0] + Owners(t[1..])
  }

  /** Every member of every row, in row order, duplicates kept. */
  function Members(t: Table): (r: seq<string>)
    ensures forall i, x :: 0 <= i < |t| && x in t[i].1 ==> x in r
    ensures forall x :: x in r ==> exists i :: 0 <= i < |t| && x in t[i].1
  {
    if t == [] then [] else t[0].1 + Members(t[1..])
  }

  /** `m.set(x, owner)` for every member `x`, in order. */
  function SetAll(m: map<string, string>, owner: string, members: seq<string>): (r: map<string, string>)
    decreases |members|
    ensures forall x :: x in r <==> x in m || x in members
    ensures forall x :: x in members ==> r[x] == owner
    ensures forall x :: x in m && x !in members ==> r[x] == m[x]
  {
    if members == [] then m else SetAll(m[members[0] := owner], owner, members[1..])
  }

  /** The reverse lookup a loop of `Map.prototype.set` calls builds, row by row, from `m`. */
  function Invert(t: Table, m: map<string, string>): map<string, string> {
    if t == [] then m else Invert(t[1..], SetAll(m, t[0].0, t[0].1))
  }

  /**
   * Reference meaning of the reverse lookup: the owner of the last row that
   * lists `x`, or None when no row does.
   */
  function LastOwner(t: Table, x: string): Option<string> {
    if t == [] then None
    else match LastOwner(t[1..], x)
      case Some(o) => Some(o)
      case None => if x in t[0].1 then Some(t[0].0) else None
  }

  /** `LastOwner` answers with an owner exactly when some row lists `x`. */
  lemma {:induction false} LastOwnerSpec(t: Table, x: string)
    ensures LastOwner(t, x).Some? ==> LastOwner(t, x).value in Owners(t)
    ensures LastOwner(t, x).Some? <==> exists i :: 0 <= i < |t| && x in t[i].1
  {
    if t != [] {
      LastOwnerSpec(t[1..], x);
      assert Owners(t) == [t[0].0] + Owners(t[1..]);
      assert forall i :: 0 < i < |t| ==> t[1..][i - 1] == t[i];
      if LastOwner(t[1..], x).Some? {
        var i :| 0 <= i < |t| - 1 && x in t[1..][i].1;
        assert x in t[i + 1].1;
      }
    }
  }

  /** The inverted table answers exactly as `LastOwner` does: later rows overwrite earlier ones. */
  lemma {:induction false} InvertIsLastOwner(t: Table, m: map<string, string>, x: string)
    ensures x in Invert(t, m) <==> LastOwner(t, x).Some? || x in m
    ensures LastOwner(t, x).Some? ==> Invert(t, m)[x] == LastOwner(t, x).value
    ensures LastOwner(t, x).None? && x in m ==> Invert(t, m)[x] == m[x]
  {
    if t != [] {
      InvertIsLastOwner(t[1..], SetAll(m, t[0].0, t[0].1), x);
    }
  }

  // ---------------------------------------------------------------------------
  // The lookups
  // ---------------------------------------------------------------------------

  /** `normalizeMap`: lower-cased alias -> canonical name. */
  function NormalizeMap(): map<string, string> {
    Invert(SkillAliases, map[])
  }

  /** `categoryMap`: canonical name -> category. */
  function CategoryMap(): map<string, string> {
    Invert(SkillCategories, map[])
  }

  /** The canonical names, in table order. */
  function Canonicals(): seq<string> {
    Owners(SkillAliases)
  }

  /** Looks a lower-cased, trimmed key up in `normalizeMap`. */
  function LookupAlias(key: string): (r: Option<string>)
    ensures r.Some? ==> r.value in Canonicals()
    ensures r == LastOwner(SkillAliases, key)
  {
    InvertIsLastOwner(SkillAliases, map[], key);
    LastOwnerSpec(SkillAliases, key);
    if key in NormalizeMap() then Some(NormalizeMap()[key]) else None
  }

  /**
   * `normalizeSkill`: None for an empty name; otherwise the canonical name
   * the lower-cased, trimmed spelling is an alias of, if any.
   */
  function NormalizeSkill(raw: string): (r: Option<string>)
    ensures raw == [] ==> r == None
    ensures r.Some? ==> r.value in Canonicals()
    ensures raw != [] ==> r == LastOwner(SkillAliases, Trim(ToLower(raw)))
  {
    if raw == [] then None else LookupAlias(Trim(ToLower(raw)))
  }

  /** `getSkillCategory`: the category of a canonical name, "other" when it has none. */
  function GetSkillCategory(name: string): (r: string)
    ensures r == OtherCategory || r in Owners(SkillCategories)
    ensures LastOwner(SkillCategories, name).None? ==> r == OtherCategory
    ensures LastOwner(SkillCategories, name).Some? ==> r == LastOwner(SkillCategories, name).value
  {
    InvertIsLastOwner(SkillCategories, map[], name);
    LastOwnerSpec(SkillCategories, name);
    if name in CategoryMap() then CategoryMap()[name] else OtherCategory
  }

  /** The key `key` of a stable sort by alias length. */
  function PatternLength(a: string): real {
    |a| as real
  }

  /**
   * `getAllSkillPatterns`: every alias of every canonical name, duplicates
   * kept, longest first (ties in table order).
   */
  function GetAllSkillPatterns(): (r: seq<string>)
    ensures multiset(r) == multiset(Members(SkillAliases))
    ensures forall i, j :: 0 <= i < j < |r| ==> |r[i]| >= |r[j]|
  {
    var r := Sorting.SortDesc(Members(SkillAliases), PatternLength);
    assert forall i :: 0 <= i < |r| ==> PatternLength(r[i]) == |r[i]| as real;
    r
  }

  /** Patterns of equal length keep their table order. */
  lemma PatternTiesInTableOrder(length: nat)
    ensures Sorting.WithKey(GetAllSkillPatterns(), PatternLength, length as real)
         == Sorting.WithKey(Members(SkillAliases), PatternLength, length as real)
  {
    Sorting.SortDescStable(Members(SkillAliases), PatternLength, length as real);
  }

  // ---------------------------------------------------------------------------
  // Properties of the vocabulary
  // ---------------------------------------------------------------------------

  lemma {:induction false} MembersAppend(a: Table, b: Table)
    ensures Members(a + b) == Members(a) + Members(b)
  {
    if a == [] {
      assert a + b == b;
    } else {
      assert (a + b)[0] == a[0];
      assert (a + b)[1..] == a[1..] + b;
      MembersAppend(a[1..], b);
    }
  }

  /** A row appended later takes precedence over every earlier row. */
  lemma {:induction false} LastOwnerAppend(a: Table, b: Table, x: string)
    ensures LastOwner(a + b, x) == if LastOwner(b, x).Some? then LastOwner(b, x) else LastOwner(a, x)
  {
    if a == [] {
      assert a + b == b;
    } else {
      assert (a + b)[0] == a[0];
      assert (a + b)[1..] == a[1..] + b;
      LastOwnerAppend(a[1..], b, x);
    }
  }

  /** The first answer if there is one, else the second. */
  function OrElse(first: Option<string>, second: Option<string>): Option<string> {
    if first.Some? then first else second
  }

  /** An alias lookup over the whole table asks the chunks from the last one back. */
  lemma LookupByChunks(x: string)
    ensures LastOwner(SkillAliases, x) ==
      OrElse(LastOwner(ToolAliases2, x),
      OrElse(LastOwner(ToolAliases1, x),
      OrElse(LastOwner(AiMlAliases2, x),
      OrElse(LastOwner(AiMlAliases1, x),
      OrElse(LastOwner(CloudAliases2, x),
      OrElse(LastOwner(CloudAliases1, x),
      OrElse(LastOwner(DatabaseAliases2, x),
      OrElse(LastOwner(DatabaseAliases1, x),
      OrElse(LastOwner(BackendAliases2, x),
      OrElse(LastOwner(BackendAliases1, x),
      OrElse(LastOwner(FrontendAliases2, x),
      OrElse(LastOwner(FrontendAliases1, x),
      OrElse(LastOwner(ProgrammingAliases3, x),
      OrElse(LastOwner(ProgrammingAliases2, x),
      LastOwner(ProgrammingAliases1, x)))))))))))))))
  {
    LastOwnerAppend(ProgrammingAliases1, ProgrammingAliases2, x);
    LastOwnerAppend(ProgrammingAliases1 + ProgrammingAliases2, ProgrammingAliases3, x);
    LastOwnerAppend(ProgrammingAliases1 + ProgrammingAliases2 + ProgrammingAliases3, FrontendAliases1, x);
    LastOwnerAppend(ProgrammingAliases1 + ProgrammingAliases2 + ProgrammingAliases3 + FrontendAliases1, FrontendAliases2, x);
    LastOwnerAppend(ProgrammingAliases1 + ProgrammingAliases2 + ProgrammingAliases3 + FrontendAliases1 + FrontendAliases2, BackendAliases1, x);
    LastOwnerAppend(ProgrammingAliases1 + ProgrammingAliases2 + ProgrammingAliases3 + FrontendAliases1 + FrontendAliases2 + BackendAliases1, BackendAliases2, x);
    LastOwnerAppend(ProgrammingAliases1 + ProgrammingAliases2 + ProgrammingAliases3 + FrontendAliases1 + FrontendAliases2 + BackendAliases1 + BackendAliases2, DatabaseAliases1, x);
    LastOwnerAppend(ProgrammingAliases1 + ProgrammingAliases2 + ProgrammingAliases3 + FrontendAliases1 + FrontendAliases2 + BackendAliases1 + BackendAliases2 + DatabaseAliases1, DatabaseAliases2, x);
    LastOwnerAppend(ProgrammingAliases1 + ProgrammingAliases2 + ProgrammingAliases3 + FrontendAliases1 + FrontendAliases2 + BackendAliases1 + BackendAliases2 + DatabaseAliases1 + DatabaseAliases2, CloudAliases1, x);
    LastOwnerAppend(ProgrammingAliases1 + ProgrammingAliases2 + ProgrammingAliases3 + FrontendAliases1 + FrontendAliases2 + BackendAliases1 + BackendAliases2 + DatabaseAliases1 + DatabaseAliases2 + CloudAliases1, CloudAliases2, x);
    LastOwnerAppend(ProgrammingAliases1 + ProgrammingAliases2 + ProgrammingAliases3 + FrontendAliases1 + FrontendAliases2 + BackendAliases1 + BackendAliases2 + DatabaseAliases1 + DatabaseAliases2 + CloudAliases1 + CloudAliases2, AiMlAliases1, x);
    LastOwnerAppend(ProgrammingAliases1 + ProgrammingAliases2 + ProgrammingAliases3 + FrontendAliases1 + FrontendAliases2 + BackendAliases1 + BackendAliases2 + DatabaseAliases1 + DatabaseAliases2 + CloudAliases1 + CloudAliases2 + AiMlAliases1, AiMlAliases2, x);
    LastOwnerAppend(ProgrammingAliases1 + ProgrammingAliases2 + ProgrammingAliases3 + FrontendAliases1 + FrontendAliases2 + BackendAliases1 + BackendAliases2 + DatabaseAliases1 + DatabaseAliases2 + CloudAliases1 + CloudAliases2 + AiMlAliases1 + AiMlAliases2, ToolAliases1, x);
    LastOwnerAppend(ProgrammingAliases1 + ProgrammingAliases2 + ProgrammingAliases3 + FrontendAliases1 + FrontendAliases2 + BackendAliases1 + BackendAliases2 + DatabaseAliases1 + DatabaseAliases2 + CloudAliases1 + CloudAliases2 + AiMlAliases1 + AiMlAliases2 + ToolAliases1, ToolAliases2, x);
  }

  lemma {:induction false} OwnersAppend(a: Table, b: Table)
    ensures Owners(a + b) == Owners(a) + Owners(b)
  {
    if a == [] {
      assert a + b == b;
    } else {
      assert (a + b)[0] == a[0];
      assert (a + b)[1..] == a[1..] + b;
      OwnersAppend(a[1..], b);
    }
  }

  // Proof helpers for NoEmptyAlias and the four collision lemmas below
  // (RorResolvesToRails, RubyOnRailsResolvesToRails, TfResolvesToTensorflow,
  // GitlabResolvesToGit). Each evaluates one chunk of the alias table on one
  // key; they are kept per chunk so that no single proof has to unfold the
  // whole table. They state nothing about the source beyond those lemmas.

  lemma ProgrammingAliases1LacksEmpty()
    ensures LastOwner(ProgrammingAliases1, []) == None
  {
  }

  lemma ProgrammingAliases2LacksEmpty()
    ensures LastOwner(ProgrammingAliases2, []) == None
  {
  }

  lemma ProgrammingAliases3LacksEmpty()
    ensures LastOwner(ProgrammingAliases3, []) == None
  {
  }

  lemma FrontendAliases1LacksEmpty()
    ensures LastOwner(FrontendAliases1, []) == None
  {
  }

  lemma FrontendAliases2LacksEmpty()
    ensures LastOwner(FrontendAliases2, []) == None
  {
  }

  lemma BackendAliases1LacksEmpty()
    ensures LastOwner(BackendAliases1, []) == None
  {
  }

  lemma BackendAliases2LacksEmpty()
    ensures LastOwner(BackendAliases2, []) == None
  {
  }

  lemma DatabaseAliases1LacksEmpty()
    ensures LastOwner(DatabaseAliases1, []) == None
  {
  }

  lemma DatabaseAliases2LacksEmpty()
    ensures LastOwner(DatabaseAliases2, []) == None
  {
  }

  lemma CloudAliases1LacksEmpty()
    ensures LastOwner(CloudAliases1, []) == None
  {
  }

  lemma CloudAliases2LacksEmpty()
    ensures LastOwner(CloudAliases2, []) == None
  {
  }

  lemma AiMlAliases1LacksEmpty()
    ensures LastOwner(AiMlAliases1, []) == None
  {
  }

  lemma AiMlAliases2LacksEmpty()
    ensures LastOwner(AiMlAliases2, []) == None
  {
  }

  lemma ToolAliases1LacksEmpty()
    ensures LastOwner(ToolAliases1, []) == None
  {
  }

  lemma ToolAliases2LacksEmpty()
    ensures LastOwner(ToolAliases2, []) == None
  {
  }

  lemma BackendAliases2Ror()
    ensures LastOwner(BackendAliases2, "ror") == Some("rails")
  {
  }

  lemma DatabaseAliases1LacksRor()
    ensures LastOwner(DatabaseAliases1, "ror") == None
  {
  }

  lemma DatabaseAliases2LacksRor()
    ensures LastOwner(DatabaseAliases2, "ror") == None
  {
  }

  lemma CloudAliases1LacksRor()
    ensures LastOwner(CloudAliases1, "ror") == None
  {
  }

  lemma CloudAliases2LacksRor()
    ensures LastOwner(CloudAliases2, "ror") == None
  {
  }

  lemma AiMlAliases1LacksRor()
    ensures LastOwner(AiMlAliases1, "ror") == None
  {
  }

  lemma AiMlAliases2LacksRor()
    ensures LastOwner(AiMlAliases2, "ror") == None
  {
  }

  lemma ToolAliases1LacksRor()
    ensures LastOwner(ToolAliases1, "ror") == None
  {
  }

  lemma ToolAliases2LacksRor()
    ensures LastOwner(ToolAliases2, "ror") == None
  {
  }

  lemma BackendAliases2RubyOnRails()
    ensures LastOwner(BackendAliases2, "ruby on rails") == Some("rails")
  {
  }

  lemma DatabaseAliases1LacksRubyOnRails()
    ensures LastOwner(DatabaseAliases1, "ruby on rails") == None
  {
  }

  lemma DatabaseAliases2LacksRubyOnRails()
    ensures LastOwner(DatabaseAliases2, "ruby on rails") == None
  {
  }

  lemma CloudAliases1LacksRubyOnRails()
    ensures LastOwner(CloudAliases1, "ruby on rails") == None
  {
  }

  lemma CloudAliases2LacksRubyOnRails()
    ensures LastOwner(CloudAliases2, "ruby on rails") == None
  {
  }

  lemma AiMlAliases1LacksRubyOnRails()
    ensures LastOwner(AiMlAliases1, "ruby on rails") == None
  {
  }

  lemma AiMlAliases2LacksRubyOnRails()
    ensures LastOwner(AiMlAliases2, "ruby on rails") == None
  {
  }

  lemma ToolAliases1LacksRubyOnRails()
    ensures LastOwner(ToolAliases1, "ruby on rails") == None
  {
  }

  lemma ToolAliases2LacksRubyOnRails()
    ensures LastOwner(ToolAliases2, "ruby on rails") == None
  {
  }

  lemma AiMlAliases1Tf()
    ensures LastOwner(AiMlAliases1, "tf") == Some("tensorflow")
  {
  }

  lemma AiMlAliases2LacksTf()
    ensures LastOwner(AiMlAliases2, "tf") == None
  {
  }

  lemma ToolAliases1LacksTf()
    ensures LastOwner(ToolAliases1, "tf") == None
  {
  }

  lemma ToolAliases2LacksTf()
    ensures LastOwner(ToolAliases2, "tf") == None
  {
  }

  lemma ToolAliases1Gitlab()
    ensures LastOwner(ToolAliases1, "gitlab") == Some("git")
  {
  }

  lemma ToolAliases2LacksGitlab()
    ensures LastOwner(ToolAliases2, "gitlab") == None
  {
  }

  // Proof helpers for CanonicalsHaveCategories: the canonical names of each
  // chunk are listed under its category, one chunk per lemma.

  /** `c` is listed in some category row. */
  ghost predicate Categorised(c: string) {
    exists i :: 0 <= i < |SkillCategories| && c in SkillCategories[i].1
  }

  /** Every canonical name of `t` is listed in some category row. */
  ghost predicate OwnersCategorised(t: Table) {
    forall c :: c in Owners(t) ==> Categorised(c)
  }

  lemma ListedCategorised(t: Table, i: nat)
    requires i < |SkillCategories|
    requires forall c :: c in Owners(t) ==> c in SkillCategories[i].1
    ensures OwnersCategorised(t)
  {
  }

  lemma OwnersCategorisedAppend(a: Table, b: Table)
    requires OwnersCategorised(a) && OwnersCategorised(b)
    ensures OwnersCategorised(a + b)
  {
    OwnersAppend(a, b);
  }

  lemma ProgrammingAliases1Categorised()
    ensures OwnersCategorised(ProgrammingAliases1)
  {
    assert SkillCategories[0].1 == ProgrammingSkills;
    ListedCategorised(ProgrammingAliases1, 0);
  }

  lemma ProgrammingAliases2Categorised()
    ensures OwnersCategorised(ProgrammingAliases2)
  {
    assert SkillCategories[0].1 == ProgrammingSkills;
    ListedCategorised(ProgrammingAliases2, 0);
  }

  lemma ProgrammingAliases3Categorised()
    ensures OwnersCategorised(ProgrammingAliases3)
  {
    assert SkillCategories[0].1 == ProgrammingSkills;
    ListedCategorised(ProgrammingAliases3, 0);
  }

  lemma FrontendAliases1Categorised()
    ensures OwnersCategorised(FrontendAliases1)
  {
    assert SkillCategories[1].1 == FrontendSkills;
    ListedCategorised(FrontendAliases1, 1);
  }

  lemma FrontendAliases2Categorised()
    ensures OwnersCategorised(FrontendAliases2)
  {
    assert SkillCategories[1].1 == FrontendSkills;
    ListedCategorised(FrontendAliases2, 1);
  }

  lemma BackendAliases1Categorised()
    ensures OwnersCategorised(BackendAliases1)
  {
    assert SkillCategories[2].1 == BackendSkills;
    ListedCategorised(BackendAliases1, 2);
  }

  lemma BackendAliases2Categorised()
    ensures OwnersCategorised(BackendAliases2)
  {
    assert SkillCategories[2].1 == BackendSkills;
    ListedCategorised(BackendAliases2, 2);
  }

  lemma DatabaseAliases1Categorised()
    ensures OwnersCategorised(DatabaseAliases1)
  {
    assert SkillCategories[3].1 == DatabaseSkills;
    ListedCategorised(DatabaseAliases1, 3);
  }

  lemma DatabaseAliases2Categorised()
    ensures OwnersCategorised(DatabaseAliases2)
  {
    assert SkillCategories[3].1 == DatabaseSkills;
    ListedCategorised(DatabaseAliases2, 3);
  }

  lemma CloudAliases1Categorised()
    ensures OwnersCategorised(CloudAliases1)
  {
    assert SkillCategories[4].1 == CloudSkills;
    ListedCategorised(CloudAliases1, 4);
  }

  lemma CloudAliases2Categorised()
    ensures OwnersCategorised(CloudAliases2)
  {
    assert SkillCategories[4].1 == CloudSkills;
    ListedCategorised(CloudAliases2, 4);
  }

  lemma AiMlAliases1Categorised()
    ensures OwnersCategorised(AiMlAliases1)
  {
    assert SkillCategories[5].1 == AiMlSkills;
    ListedCategorised(AiMlAliases1, 5);
  }

  lemma AiMlAliases2Categorised()
    ensures OwnersCategorised(AiMlAliases2)
  {
    assert SkillCategories[5].1 == AiMlSkills;
    ListedCategorised(AiMlAliases2, 5);
  }

  lemma ToolAliases1Categorised()
    ensures OwnersCategorised(ToolAliases1)
  {
    assert SkillCategories[6].1 == ToolSkills;
    ListedCategorised(ToolAliases1, 6);
  }

  lemma ToolAliases2Categorised()
    ensures OwnersCategorised(ToolAliases2)
  {
    assert SkillCategories[6].1 == ToolSkills;
    ListedCategorised(ToolAliases2, 6);
  }

  /** No alias in the table is the empty string. */
  lemma NoEmptyAlias()
    ensures LastOwner(SkillAliases, []) == None
  {
    LookupByChunks([]);
    ProgrammingAliases1LacksEmpty();
    ProgrammingAliases2LacksEmpty();
    ProgrammingAliases3LacksEmpty();
    FrontendAliases1LacksEmpty();
    FrontendAliases2LacksEmpty();
    BackendAliases1LacksEmpty();
    BackendAliases2LacksEmpty();
    DatabaseAliases1LacksEmpty();
    DatabaseAliases2LacksEmpty();
    CloudAliases1LacksEmpty();
    CloudAliases2LacksEmpty();
    AiMlAliases1LacksEmpty();
    AiMlAliases2LacksEmpty();
    ToolAliases1LacksEmpty();
    ToolAliases2LacksEmpty();
  }

  /**
   * Aliases listed under two canonical names resolve to the row written
   * last: "ror" is listed under ruby and then under rails, and resolves to rails.
   */
  lemma RorResolvesToRails()
    ensures NormalizeSkill("ror") == Some("rails")
  {
    KeyOfLowerTrimmed("ror");
    LookupByChunks("ror");
    BackendAliases2Ror();
    DatabaseAliases1LacksRor();
    DatabaseAliases2LacksRor();
    CloudAliases1LacksRor();
    CloudAliases2LacksRor();
    AiMlAliases1LacksRor();
    AiMlAliases2LacksRor();
    ToolAliases1LacksRor();
    ToolAliases2LacksRor();
  }

  /** "ruby on rails" is listed under ruby and then under rails, and resolves to rails. */
  lemma RubyOnRailsResolvesToRails()
    ensures NormalizeSkill("ruby on rails") == Some("rails")
  {
    KeyOfLowerTrimmed("ruby on rails");
    LookupByChunks("ruby on rails");
    BackendAliases2RubyOnRails();
    DatabaseAliases1LacksRubyOnRails();
    DatabaseAliases2LacksRubyOnRails();
    CloudAliases1LacksRubyOnRails();
    CloudAliases2LacksRubyOnRails();
    AiMlAliases1LacksRubyOnRails();
    AiMlAliases2LacksRubyOnRails();
    ToolAliases1LacksRubyOnRails();
    ToolAliases2LacksRubyOnRails();
  }

  /** "tf" is listed under terraform and then under tensorflow: tensorflow wins. */
  lemma TfResolvesToTensorflow()
    ensures NormalizeSkill("tf") == Some("tensorflow")
  {
    KeyOfLowerTrimmed("tf");
    LookupByChunks("tf");
    AiMlAliases1Tf();
    AiMlAliases2LacksTf();
    ToolAliases1LacksTf();
    ToolAliases2LacksTf();
  }

  /** "gitlab" is listed under git and is also its own row: the git row, written later, wins. */
  lemma GitlabResolvesToGit()
    ensures NormalizeSkill("gitlab") == Some("git")
  {
    KeyOfLowerTrimmed("gitlab");
    LookupByChunks("gitlab");
    ToolAliases1Gitlab();
    ToolAliases2LacksGitlab();
  }

  /** A lower-case spelling with no outer whitespace is its own lookup key. */
  lemma KeyOfLowerTrimmed(s: string)
    requires NoUpper(s) && Trimmed(s)
    ensures Trim(ToLower(s)) == s
  {
    NoUpperLowerIsSelf(s);
    TrimOfTrimmed(s);
  }

  /** The first nine chunks name only categorised skills. */
  lemma EarlyChunksCategorised()
    ensures OwnersCategorised(ProgrammingAliases1 + ProgrammingAliases2 + ProgrammingAliases3 + FrontendAliases1 + FrontendAliases2 + BackendAliases1 + BackendAliases2 + DatabaseAliases1 + DatabaseAliases2)
  {
    ProgrammingAliases1Categorised();
    ProgrammingAliases2Categorised();
    ProgrammingAliases3Categorised();
    FrontendAliases1Categorised();
    FrontendAliases2Categorised();
    BackendAliases1Categorised();
    BackendAliases2Categorised();
    DatabaseAliases1Categorised();
    DatabaseAliases2Categorised();
    OwnersCategorisedAppend(ProgrammingAliases1, ProgrammingAliases2);
    OwnersCategorisedAppend(ProgrammingAliases1 + ProgrammingAliases2, ProgrammingAliases3);
    OwnersCategorisedAppend(ProgrammingAliases1 + ProgrammingAliases2 + ProgrammingAliases3, FrontendAliases1);
    OwnersCategorisedAppend(ProgrammingAliases1 + ProgrammingAliases2 + ProgrammingAliases3 + FrontendAliases1, FrontendAliases2);
    OwnersCategorisedAppend(ProgrammingAliases1 + ProgrammingAliases2 + ProgrammingAliases3 + FrontendAliases1 + FrontendAliases2, BackendAliases1);
    OwnersCategorisedAppend(ProgrammingAliases1 + ProgrammingAliases2 + ProgrammingAliases3 + FrontendAliases1 + FrontendAliases2 + BackendAliases1, BackendAliases2);
    OwnersCategorisedAppend(ProgrammingAliases1 + ProgrammingAliases2 + ProgrammingAliases3 + FrontendAliases1 + FrontendAliases2 + BackendAliases1 + BackendAliases2, DatabaseAliases1);
    OwnersCategorisedAppend(ProgrammingAliases1 + ProgrammingAliases2 + ProgrammingAliases3 + FrontendAliases1 + FrontendAliases2 + BackendAliases1 + BackendAliases2 + DatabaseAliases1, DatabaseAliases2);
  }

  /** Every canonical name is listed in some category row. */
  lemma CanonicalInCategoryRow(c: string)
    requires c in Canonicals()
    ensures Categorised(c)
  {
    EarlyChunksCategorised();
    CloudAliases1Categorised();
    CloudAliases2Categorised();
    AiMlAliases1Categorised();
    AiMlAliases2Categorised();
    ToolAliases1Categorised();
    ToolAliases2Categorised();
    OwnersCategorisedAppend(ProgrammingAliases1 + ProgrammingAliases2 + ProgrammingAliases3 + FrontendAliases1 + FrontendAliases2 + BackendAliases1 + BackendAliases2 + DatabaseAliases1 + DatabaseAliases2, CloudAliases1);
    OwnersCategorisedAppend(ProgrammingAliases1 + ProgrammingAliases2 + ProgrammingAliases3 + FrontendAliases1 + FrontendAliases2 + BackendAliases1 + BackendAliases2 + DatabaseAliases1 + DatabaseAliases2 + CloudAliases1, CloudAliases2);
    OwnersCategorisedAppend(ProgrammingAliases1 + ProgrammingAliases2 + ProgrammingAliases3 + FrontendAliases1 + FrontendAliases2 + BackendAliases1 + BackendAliases2 + DatabaseAliases1 + DatabaseAliases2 + CloudAliases1 + CloudAliases2, AiMlAliases1);
    OwnersCategorisedAppend(ProgrammingAliases1 + ProgrammingAliases2 + ProgrammingAliases3 + FrontendAliases1 + FrontendAliases2 + BackendAliases1 + BackendAliases2 + DatabaseAliases1 + DatabaseAliases2 + CloudAliases1 + CloudAliases2 + AiMlAliases1, AiMlAliases2);
    OwnersCategorisedAppend(ProgrammingAliases1 + ProgrammingAliases2 + ProgrammingAliases3 + FrontendAliases1 + FrontendAliases2 + BackendAliases1 + BackendAliases2 + DatabaseAliases1 + DatabaseAliases2 + CloudAliases1 + CloudAliases2 + AiMlAliases1 + AiMlAliases2, ToolAliases1);
    OwnersCategorisedAppend(ProgrammingAliases1 + ProgrammingAliases2 + ProgrammingAliases3 + FrontendAliases1 + FrontendAliases2 + BackendAliases1 + BackendAliases2 + DatabaseAliases1 + DatabaseAliases2 + CloudAliases1 + CloudAliases2 + AiMlAliases1 + AiMlAliases2 + ToolAliases1, ToolAliases2);
  }

  /** Every canonical name has a category other than "other". */
  lemma CanonicalsHaveCategories(c: string)
    requires c in Canonicals()
    ensures GetSkillCategory(c) != OtherCategory
    ensures GetSkillCategory(c) in Owners(SkillCategories)
  {
    CanonicalInCategoryRow(c);
    LastOwnerSpec(SkillCategories, c);
    CategoryNamesNotOther();
  }

  lemma CategoryNamesNotOther()
    ensures OtherCategory !in Owners(SkillCategories)
  {
    forall i | 0 <= i < |SkillCategories|
      ensures Owners(SkillCategories)[i] != OtherCategory
    {
    }
  }

  /**
   * Lookup is insensitive to case and surrounding whitespace: normalising a
   * name gives the same answer as normalising its lower-cased, trimmed form.
   */
  lemma NormalizeSkillCaseInsensitive(raw: string)
    ensures NormalizeSkill(raw) == NormalizeSkill(Trim(ToLower(raw)))
  {
    var key := Trim(ToLower(raw));
    if raw != [] {
      if key == [] {
        NoEmptyAlias();
      } else {
        TrimKeepsNoUpper(ToLower(raw));
        NoUpperLowerIsSelf(key);
        TrimOfTrimmed(key);
      }
    }
  }
}
