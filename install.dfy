/** The installation hooks (indeed/indeed/install.py): the HRMS check before
    installation, the dependency validation, the bench-path lookup and the
    reordering of the site's apps.txt so that 'indeed' follows 'hrms'. The
    file system, the installed-app list and the `bench` commands are inputs. */
module Install {
  import opened Common

  const Hrms := "hrms"
  const Indeed := "indeed"
  const Erpnext := "erpnext"

  const RequiredApps := [Erpnext, Hrms]
  const RequiredDoctypes := ["Job Opening", "Job Applicant", "Company"]

  const MissingAppsPrefix := "Missing required apps: "
  const MissingDoctypesPrefix := "Missing required DocTypes: "
  const HrmsInstallFailed := "HRMS installation failed: "

  const BenchDir := "frappe-bench"
  const DefaultBenchPath := "/home/frappe/frappe-bench"

  // ---------------------------------------------------------------------------
  // Installed apps and dependencies

  /** The apps frappe.get_installed_apps() reports; `None` when the lookup
      raised, in which case no app counts as installed. */
  function InstalledApps(installed: Option<seq<string>>): set<string> {
    if installed.Some? then set a | a in installed.value else {}
  }

  /** is_app_installed. */
  predicate IsAppInstalled(installed: Option<seq<string>>, app: string) {
    installed.Some? && app in installed.value
  }

  /** The required names that are not present, in the required order. */
  function Missing(required: seq<string>, present: set<string>): (r: seq<string>)
    ensures |r| <= |required|
    ensures forall x :: x in r <==> x in required && x !in present
    ensures r == [] <==> forall i :: 0 <= i < |required| ==> required[i] in present
  {
    if required == [] then []
    else
      var last := required[|required| - 1];
      var rest := Missing(required[..|required| - 1], present);
      assert forall x :: x in required <==> x in required[..|required| - 1] || x == last;
      if last in present then rest else rest + [last]
  }

  /** Appends, in order, every required name that is not present. */
  method CollectMissing(required: seq<string>, present: set<string>) returns (missing: seq<string>)
    ensures missing == Missing(required, present)
  {
    missing := [];
    for k := 0 to |required|
      invariant missing == Missing(required[..k], present)
    {
      assert required[..k + 1][..k] == required[..k];
      if required[k] !in present {
        missing := missing + [required[k]];
      }
    }
    assert required[..|required|] == required;
  }

  /** validate_dependencies: the missing apps, of erpnext and hrms in that
      order, are reported first; the DocTypes are checked only once every
      app is installed; it passes exactly when nothing is missing. */
  method ValidateDependencies(installed: Option<seq<string>>, doctypes: set<string>) returns (o: Outcome)
    ensures var apps := (if IsAppInstalled(installed, Erpnext) then [] else [Erpnext])
                        + (if IsAppInstalled(installed, Hrms) then [] else [Hrms]);
      && (apps != [] ==> o == Fail(MissingAppsPrefix + Join(apps, ", ")))
      && (apps == [] && Missing(RequiredDoctypes, doctypes) != [] ==>
            o == Fail(MissingDoctypesPrefix + Join(Missing(RequiredDoctypes, doctypes), ", ")))
    ensures o == Pass <==>
      IsAppInstalled(installed, Erpnext) && IsAppInstalled(installed, Hrms)
      && forall d :: d in RequiredDoctypes ==> d in doctypes
  {
    var present := InstalledApps(installed);
    var missingApps := CollectMissing(RequiredApps, present);
    assert RequiredApps[..1] == [Erpnext];
    if missingApps != [] {
      return Fail(MissingAppsPrefix + Join(missingApps, ", "));
    }
    var missingDoctypes := CollectMissing(RequiredDoctypes, doctypes);
    if missingDoctypes != [] {
      return Fail(MissingDoctypesPrefix + Join(missingDoctypes, ", "));
    }
    o := Pass;
  }

  /** How the `bench install-app hrms` run ended: installed, a non-zero exit
      with its stderr, or the command could not be run at all. Fetching the
      app beforehand only ever warns, so it has no outcome here. */
  datatype InstallRun = Succeeded | ExitedWithError(stderr: string) | CouldNotRun(error: string)

  /** install_hrms: a failed run raises, and the handler wraps the message
      once more, so a non-zero exit is reported with the prefix twice. */
  function InstallHrms(run: InstallRun): (o: Outcome)
    ensures o.Pass? <==> run.Succeeded?
    ensures o.Fail? ==> |o.msg| >= |HrmsInstallFailed| && o.msg[..|HrmsInstallFailed|] == HrmsInstallFailed
    ensures run.ExitedWithError? ==>
      && |o.msg| == 2 * |HrmsInstallFailed| + |run.stderr|
      && o.msg[|HrmsInstallFailed|..2 * |HrmsInstallFailed|] == HrmsInstallFailed
      && o.msg[2 * |HrmsInstallFailed|..] == run.stderr
    ensures run.CouldNotRun? ==>
      |o.msg| == |HrmsInstallFailed| + |run.error| && o.msg[|HrmsInstallFailed|..] == run.error
  {
    match run
    case Succeeded => Pass
    case ExitedWithError(stderr) => Fail(HrmsInstallFailed + (HrmsInstallFailed + stderr))
    case CouldNotRun(error) => Fail(HrmsInstallFailed + error)
  }

  /** before_install: HRMS is installed only when it is not installed yet. */
  method BeforeInstall(installed: Option<seq<string>>, run: InstallRun) returns (attempted: bool, o: Outcome)
    ensures attempted <==> !IsAppInstalled(installed, Hrms)
    ensures !attempted ==> o == Pass
    ensures attempted ==> o == InstallHrms(run)
  {
    attempted := !IsAppInstalled(installed, Hrms);
    if attempted {
      o := InstallHrms(run);
    } else {
      o := Pass;
    }
  }

  // ---------------------------------------------------------------------------
  // The bench path

  /** get_bench_path. `siblingBench` is the absolute path of ../frappe-bench
      when it exists and `currentDir` that of ./ when it exists. */
  function GetBenchPath(cwd: string, siblingBench: Option<string>, currentDir: Option<string>): (r: string)
    ensures Contains(cwd, BenchDir) ==> |BenchDir| <= |r| <= |cwd| && r == cwd[..|r|] && OccursAt(r, BenchDir, |r| - |BenchDir|)
    ensures !Contains(cwd, BenchDir) && siblingBench.Some? ==> r == siblingBench.value
    ensures !Contains(cwd, BenchDir) && siblingBench.None? && currentDir.Some? ==> r == currentDir.value
    ensures !Contains(cwd, BenchDir) && siblingBench.None? && currentDir.None? ==> r == DefaultBenchPath
  {
    match FindSub(cwd, BenchDir)
    case Some(k) => cwd[..k] + BenchDir
    case None =>
      if siblingBench.Some? then siblingBench.value
      else if currentDir.Some? then currentDir.value
      else DefaultBenchPath
  }

  lemma {:induction false} OccursAtContains(s: string, sub: string, j: nat)
    requires OccursAt(s, sub, j)
    ensures Contains(s, sub)
    decreases j
  {
    if j > 0 {
      SliceOfTail(s, j, |sub|);
      OccursAtContains(s[1..], sub, j - 1);
    }
  }

  /** A slice of a prefix is the same slice of the whole. */
  lemma SliceOfPrefix(s: string, m: nat, j: nat, n: nat)
    requires j + n <= m <= |s|
    ensures s[..m][j..j + n] == s[j..j + n]
  {
  }

  /** A prefix followed by the slice after it is the longer prefix. */
  lemma PrefixThenSlice(s: string, k: nat, n: nat)
    requires k + n <= |s|
    ensures s[..k] + s[k..k + n] == s[..k + n]
  {
  }

  /** `sub` occurs in the prefix of `s` that ends with its first occurrence
      only at that end. */
  lemma OnlyAtEnd(s: string, sub: string, k: nat, prefix: string)
    requires OccursAt(s, sub, k) && prefix == s[..k + |sub|]
    requires forall j: nat :: j < k ==> !OccursAt(s, sub, j)
    ensures forall j: nat :: OccursAt(prefix, sub, j) ==> j == k
  {
    forall j: nat | OccursAt(prefix, sub, j)
      ensures j == k
    {
      if j < k {
        SliceOfPrefix(s, k + |sub|, j, |sub|);
        assert OccursAt(s, sub, j);
      }
    }
  }

  /** Cutting a text just after the first occurrence of `sub` gives a prefix
      in which `sub` occurs only at the end. */
  lemma CutAtFirst(s: string, sub: string)
    requires Contains(s, sub)
    ensures var k := FindSub(s, sub).value;
      && s[..k] + sub == s[..k + |sub|]
      && forall j: nat :: OccursAt(s[..k] + sub, sub, j) ==> j == k
  {
    CutAt(s, sub, FindSub(s, sub).value);
  }

  /** Cutting a text just after an occurrence of `sub` that has none before
      it gives a prefix in which `sub` occurs only at the end. */
  lemma CutAt(s: string, sub: string, k: nat)
    requires OccursAt(s, sub, k)
    requires forall j: nat :: j < k ==> !OccursAt(s, sub, j)
    ensures s[..k] + sub == s[..k + |sub|]
    ensures forall j: nat :: OccursAt(s[..k] + sub, sub, j) ==> j == k
  {
    PrefixThenSlice(s, k, |sub|);
    OnlyAtEnd(s, sub, k, s[..k + |sub|]);
  }

  /** Cutting the cut text again changes nothing. */
  lemma CutTwice(s: string, sub: string)
    requires Contains(s, sub)
    ensures var k := FindSub(s, sub).value;
      && Contains(s[..k] + sub, sub)
      && FindSub(s[..k] + sub, sub) == Some(k)
      && (s[..k] + sub)[..k] + sub == s[..k] + sub
  {
    var k := FindSub(s, sub).value;
    var r := s[..k] + sub;
    CutAtFirst(s, sub);
    assert r[k..k + |sub|] == sub;
    OccursAtContains(r, sub, k);
    assert r[..k] == s[..k];
  }

  /** Inside a bench the path is the working directory cut just after the
      first "frappe-bench", which occurs nowhere else in it. */
  lemma BenchPathIsFirstBenchPrefix(cwd: string, siblingBench: Option<string>, currentDir: Option<string>)
    requires Contains(cwd, BenchDir)
    ensures var r := GetBenchPath(cwd, siblingBench, currentDir);
      && |BenchDir| <= |r| <= |cwd| && r == cwd[..|r|]
      && OccursAt(r, BenchDir, |r| - |BenchDir|)
      && forall j: nat :: OccursAt(r, BenchDir, j) ==> j == |r| - |BenchDir|
  {
    CutAtFirst(cwd, BenchDir);
  }

  /** Asking again from the bench path returns the bench path. */
  lemma BenchPathIdempotent(cwd: string, siblingBench: Option<string>, currentDir: Option<string>,
                            siblingBench': Option<string>, currentDir': Option<string>)
    requires Contains(cwd, BenchDir)
    ensures var r := GetBenchPath(cwd, siblingBench, currentDir);
      GetBenchPath(r, siblingBench', currentDir') == r
  {
    CutTwice(cwd, BenchDir);
  }

  // ---------------------------------------------------------------------------
  // apps.txt

  /** A text without line breaks. */
  predicate SingleLine(s: string) {
    forall j :: 0 <= j < |s| ==> s[j] != '\n'
  }

  /** Neither end is whitespace. */
  predicate Trimmed(s: string) {
    s == [] || (!IsSpace(s[0]) && !IsSpace(s[|s| - 1]))
  }

  /** A text without carriage returns. */
  predicate NoReturn(s: string) {
    forall j :: 0 <= j < |s| ==> s[j] != '\r'
  }

  /** An apps.txt entry as the hook reads it: non-blank, trimmed, one line,
      with no carriage return left by the reading. */
  predicate CleanApp(a: string) {
    a != "" && Trimmed(a) && SingleLine(a) && NoReturn(a)
  }

  /** Reading a file opened with mode 'r' (universal newlines): every "\r\n"
      and every lone '\r' comes back as '\n'. */
  function Universal(text: string): (r: string)
    ensures NoReturn(r)
    ensures |r| <= |text|
    decreases |text|
  {
    if text == [] then ""
    else if text[0] == '\r' then
      "\n" + Universal(if |text| > 1 && text[1] == '\n' then text[2..] else text[1..])
    else [text[0]] + Universal(text[1..])
  }

  /** A text without carriage returns reads back as it is. */
  lemma {:induction false} UniversalKeeps(text: string)
    requires NoReturn(text)
    ensures Universal(text) == text
    decreases |text|
  {
    if text != [] {
      UniversalKeeps(text[1..]);
      assert text == [text[0]] + text[1..];
    }
  }

  /** A stretch without carriage returns reads as it is, and reading goes on after it. */
  lemma {:induction false} UniversalPlain(a: string, rest: string)
    requires NoReturn(a)
    ensures Universal(a + rest) == a + Universal(rest)
    decreases |a|
  {
    if a != [] {
      assert (a + rest)[0] == a[0] && (a + rest)[1..] == a[1..] + rest;
      UniversalPlain(a[1..], rest);
      assert a == [a[0]] + a[1..];
    } else {
      assert a + rest == rest;
    }
  }

  /** A carriage return, with the line feed after it if there is one, reads as '\n'. */
  lemma UniversalReturn(rest: string)
    ensures Universal("\r" + rest) == "\n" + Universal(if rest != [] && rest[0] == '\n' then rest[1..] else rest)
  {
    assert ("\r" + rest)[1..] == rest;
    if rest != [] {
      assert ("\r" + rest)[2..] == rest[1..];
    }
  }

  /** Two lines ended by old Mac line ends read as two lines ended by '\n'. */
  lemma MacLines(a: string, b: string)
    requires NoReturn(a) && NoReturn(b) && SingleLine(b)
    ensures Universal(a + "\r" + b + "\r") == a + "\n" + b + "\n"
  {
    var cr: string := "\r";
    var last := b + cr;
    var tail := cr + last;
    UniversalReturn([]);
    assert cr + [] == cr;
    UniversalPlain(b, cr);
    assert Universal(last) == b + "\n";
    UniversalReturn(last);
    assert last[0] != '\n';
    assert Universal(tail) == "\n" + (b + "\n");
    UniversalPlain(a, tail);
    assert a + "\r" + b + "\r" == a + tail;
  }

  /** The length of the first line, without its line break. */
  function LineLength(text: string): (k: nat)
    ensures k <= |text|
    ensures forall i :: 0 <= i < k ==> text[i] != '\n'
    ensures k < |text| ==> text[k] == '\n'
  {
    if text == [] || text[0] == '\n' then 0 else 1 + LineLength(text[1..])
  }

  /** readlines() on the text as read (see `Universal`): the lines, each
      with its '\n' except possibly the last. */
  function Readlines(text: string): (lines: seq<string>)
    ensures forall i :: 0 <= i < |lines| ==> lines[i] != "" && SingleLine(lines[i][..|lines[i]| - 1])
    decreases |text|
  {
    if text == [] then []
    else
      var k := LineLength(text);
      var end := if k < |text| then k + 1 else k;
      var line := text[..end];
      var rest := Readlines(text[end..]);
      assert line != "" && SingleLine(line[..|line| - 1]) by {
        assert forall i :: 0 <= i < |line| - 1 ==> line[..|line| - 1][i] == text[i];
      }
      assert forall i :: 1 <= i < 1 + |rest| ==> ([line] + rest)[i] == rest[i - 1];
      [line] + rest
  }

  /** readlines() loses nothing: the lines put back together are the text. */
  lemma {:induction false} ReadlinesRestore(text: string)
    ensures Flatten(Readlines(text)) == text
    decreases |text|
  {
    if text != [] {
      var k := LineLength(text);
      var end := if k < |text| then k + 1 else k;
      ReadlinesCons(text);
      ReadlinesRestore(text[end..]);
      FlattenStep(text, end, Readlines(text[end..]));
    }
  }

  /** The first line followed by lines that put back the rest. */
  lemma FlattenStep(text: string, end: nat, rest: seq<string>)
    requires 0 < end <= |text| && Flatten(rest) == text[end..]
    ensures Flatten([text[..end]] + rest) == text
  {
    FlattenCons(text[..end], rest);
    assert text == text[..end] + text[end..];
  }

  /** readlines() takes the first line, with its break, then the rest. */
  lemma ReadlinesCons(text: string)
    requires text != []
    ensures var k := LineLength(text);
      var end := if k < |text| then k + 1 else k;
      Readlines(text) == [text[..end]] + Readlines(text[end..])
  {
    var k := LineLength(text);
    var end := if k < |text| then k + 1 else k;
    assert text[..end] != "";
  }

  lemma FlattenCons(line: string, rest: seq<string>)
    ensures Flatten([line] + rest) == line + Flatten(rest)
  {
    assert ([line] + rest)[1..] == rest;
  }

  /** Every line readlines() gives but the last ends with its line break. */
  lemma {:induction false} ReadlinesBreaks(text: string)
    ensures var lines := Readlines(text);
      forall i :: 0 <= i < |lines| - 1 ==> lines[i][|lines[i]| - 1] == '\n'
    decreases |text|
  {
    if text != [] {
      var k := LineLength(text);
      var end := if k < |text| then k + 1 else k;
      var line, rest := text[..end], Readlines(text[end..]);
      ReadlinesCons(text);
      ReadlinesBreaks(text[end..]);
      if rest != [] {
        assert text[end..] != [];
        assert k < |text| && line == text[..k + 1];
        assert line[k] == '\n';
      }
      BreaksCons(line, rest);
    }
  }

  /** A line that ends with a break, if more lines follow, put before lines
      that all end with one but the last. */
  lemma BreaksCons(line: string, rest: seq<string>)
    requires rest != [] ==> line != [] && line[|line| - 1] == '\n'
    requires forall i :: 0 <= i < |rest| - 1 ==> rest[i] != [] && rest[i][|rest[i]| - 1] == '\n'
    ensures var lines := [line] + rest;
      forall i :: 0 <= i < |lines| - 1 ==> lines[i][|lines[i]| - 1] == '\n'
  {
    var lines := [line] + rest;
    forall i | 0 <= i < |lines| - 1
      ensures lines[i][|lines[i]| - 1] == '\n'
    {
      if i == 0 {
        assert lines[0] == line;
      } else {
        assert lines[i] == rest[i - 1];
      }
    }
  }

  /** The lines of a text without carriage returns have none either. */
  lemma {:induction false} ReadlinesNoReturn(text: string)
    requires NoReturn(text)
    ensures forall i :: 0 <= i < |Readlines(text)| ==> NoReturn(Readlines(text)[i])
    decreases |text|
  {
    if text != [] {
      var k := LineLength(text);
      var end := if k < |text| then k + 1 else k;
      ReadlinesCons(text);
      assert NoReturn(text[end..]);
      ReadlinesNoReturn(text[end..]);
      assert NoReturn(text[..end]);
      var lines := Readlines(text);
      forall i | 0 <= i < |lines|
        ensures NoReturn(lines[i])
      {
        if i > 0 {
          assert lines[i] == Readlines(text[end..])[i - 1];
        }
      }
    }
  }

  /** The lines put back together. */
  function Flatten(lines: seq<string>): string {
    if lines == [] then "" else lines[0] + Flatten(lines[1..])
  }

  /** The app list of apps.txt: each line stripped, blank lines dropped. */
  function ParseApps(lines: seq<string>): (apps: seq<string>)
    ensures |apps| <= |lines|
    ensures forall i :: 0 <= i < |apps| ==> apps[i] != "" && Trimmed(apps[i])
  {
    if lines == [] then []
    else
      var app := Strip(lines[0]);
      var rest := ParseApps(lines[1..]);
      if app != "" then [app] + rest else rest
  }

  /** The list comprehension works line by line: the apps of a concatenation
      of line lists are the apps of the first followed by those of the second. */
  lemma {:induction false} ParseAppsAppend(a: seq<string>, b: seq<string>)
    ensures ParseApps(a + b) == ParseApps(a) + ParseApps(b)
    decreases |a|
  {
    if a != [] {
      assert a == [a[0]] + a[1..];
      assert a + b == [a[0]] + (a[1..] + b);
      ParseAppsFront(a[0], a[1..]);
      ParseAppsFront(a[0], a[1..] + b);
      ParseAppsAppend(a[1..], b);
    } else {
      assert a + b == b;
    }
  }

  /** One line gives its stripped form, or nothing when that is blank. */
  lemma ParseAppsLine(line: string)
    ensures ParseApps([line]) == if Strip(line) != "" then [Strip(line)] else []
  {
    ParseAppsCons([line]);
    assert [line][1..] == [];
  }

  /** The apps of a line followed by more lines. */
  lemma ParseAppsFront(line: string, rest: seq<string>)
    ensures ParseApps([line] + rest) == (if Strip(line) != "" then [Strip(line)] else []) + ParseApps(rest)
  {
    ParseAppsCons([line] + rest);
    assert ([line] + rest)[1..] == rest;
  }

  /** The first line's app, if any, followed by the apps of the rest. */
  lemma ParseAppsCons(lines: seq<string>)
    requires lines != []
    ensures ParseApps(lines) == (if Strip(lines[0]) != "" then [Strip(lines[0])] else []) + ParseApps(lines[1..])
  {
  }

  /** The text the hook writes: every app followed by a line break. */
  function AppsText(apps: seq<string>): string {
    if apps == [] then "" else AppsText(apps[..|apps| - 1]) + apps[|apps| - 1] + "\n"
  }

  /** Writes the apps one line at a time. */
  method WriteApps(apps: seq<string>) returns (text: string)
    ensures text == AppsText(apps)
  {
    text := "";
    for k := 0 to |apps|
      invariant text == AppsText(apps[..k])
    {
      assert apps[..k + 1][..k] == apps[..k];
      text := text + apps[k] + "\n";
    }
    assert apps[..|apps|] == apps;
  }

  lemma {:induction false} AppsTextCons(apps: seq<string>)
    requires apps != []
    ensures AppsText(apps) == apps[0] + "\n" + AppsText(apps[1..])
    decreases |apps|
  {
    if |apps| > 1 {
      var init := apps[..|apps| - 1];
      AppsTextCons(init);
      assert init[1..] == apps[1..][..|apps[1..]| - 1];
      assert init[0] == apps[0];
    } else {
      assert apps[1..] == [];
      assert apps[..0] == [];
    }
  }

  /** Stripping a line that is a clean app and its line break gives the app. */
  lemma StripLine(a: string)
    requires a != "" && Trimmed(a)
    ensures Strip(a + "\n") == a
  {
    var s := a + "\n";
    assert s[..|s| - 1] == a;
    assert RStrip(s) == RStrip(a) == a;
  }

  /** Stripping a line drops its line break and keeps no other, and adds
      no carriage return. */
  lemma StripSingleLine(line: string)
    requires line != "" && SingleLine(line[..|line| - 1]) && NoReturn(line)
    ensures SingleLine(Strip(line)) && NoReturn(Strip(line))
  {
    var t := RStrip(line);
    if |t| == |line| {
      assert !IsSpace(t[|t| - 1]);
    }
    assert SingleLine(t);
    var r := LStrip(t);
    assert r == t[|t| - |r|..];
    StripNoReturn(line);
  }

  /** Stripping keeps a part of the text, so it adds no carriage return. */
  lemma StripNoReturn(s: string)
    requires NoReturn(s)
    ensures NoReturn(Strip(s))
  {
    var t := RStrip(s);
    assert forall i :: 0 <= i < |t| ==> t[i] == s[i];
    var r := LStrip(t);
    assert forall i :: 0 <= i < |r| ==> r[i] == t[|t| - |r| + i];
  }

  /** The apps read from any text without carriage returns are single lines. */
  lemma {:induction false} ParsedAppsAreClean(lines: seq<string>)
    requires forall i :: 0 <= i < |lines| ==> lines[i] != "" && SingleLine(lines[i][..|lines[i]| - 1])
    requires forall i :: 0 <= i < |lines| ==> NoReturn(lines[i])
    ensures forall i :: 0 <= i < |ParseApps(lines)| ==> CleanApp(ParseApps(lines)[i])
  {
    if lines != [] {
      ParsedAppsAreClean(lines[1..]);
      StripSingleLine(lines[0]);
    }
  }

  /** What the hook writes has no carriage return. */
  lemma {:induction false} AppsTextNoReturn(apps: seq<string>)
    requires forall i :: 0 <= i < |apps| ==> CleanApp(apps[i])
    ensures NoReturn(AppsText(apps))
    decreases |apps|
  {
    if apps != [] {
      AppsTextNoReturn(apps[..|apps| - 1]);
      assert CleanApp(apps[|apps| - 1]);
    }
  }

  /** Reading back what the hook writes gives the same apps. */
  lemma {:induction false} WrittenAppsReadBack(apps: seq<string>)
    requires forall i :: 0 <= i < |apps| ==> CleanApp(apps[i])
    ensures ParseApps(Readlines(AppsText(apps))) == apps
    decreases |apps|
  {
    if apps != [] {
      var a := apps[0];
      AppsTextCons(apps);
      ReadlinesFirst(a, AppsText(apps[1..]));
      ParseAppsFront(a + "\n", Readlines(AppsText(apps[1..])));
      StripLine(a);
      WrittenAppsReadBack(apps[1..]);
      assert apps == [a] + apps[1..];
    }
  }

  /** A line without a break inside, followed by its break, is read as one line. */
  lemma ReadlinesFirst(a: string, rest: string)
    requires SingleLine(a)
    ensures Readlines(a + "\n" + rest) == [a + "\n"] + Readlines(rest)
  {
    var text := a + "\n" + rest;
    assert text[|a|] == '\n';
    assert forall i :: 0 <= i < |a| ==> text[i] == a[i];
    assert LineLength(text) == |a|;
    assert text[..|a| + 1] == a + "\n" && text[|a| + 1..] == rest;
    ReadlinesCons(text);
  }

  // ---------------------------------------------------------------------------
  // Reordering

  /** list.index: the first position of `x`. */
  function IndexOf(s: seq<string>, x: string): (i: nat)
    requires x in s
    ensures i < |s| && s[i] == x
    ensures forall j :: 0 <= j < i ==> s[j] != x
  {
    if s[0] == x then 0 else 1 + IndexOf(s[1..], x)
  }

  lemma IndexOfIs(s: seq<string>, x: string, k: nat)
    requires k < |s| && s[k] == x
    requires forall j :: 0 <= j < k ==> s[j] != x
    ensures x in s && IndexOf(s, x) == k
  {
  }

  /** The list without its element at `i`. */
  function RemoveAt(s: seq<string>, i: nat): (r: seq<string>)
    requires i < |s|
    ensures |r| == |s| - 1
    ensures multiset(r) + multiset{s[i]} == multiset(s)
  {
    assert s == s[..i] + [s[i]] + s[i + 1..];
    s[..i] + s[i + 1..]
  }

  /** Both apps are listed and 'hrms' comes after 'indeed'. */
  predicate NeedsReorder(apps: seq<string>) {
    Hrms in apps && Indeed in apps && IndexOf(apps, Hrms) > IndexOf(apps, Indeed)
  }

  /** `after` is `before` with its first 'indeed' moved to just after its
      first 'hrms': a permutation in which every other app keeps its place
      relative to the rest, and 'hrms' moves one place forward. */
  predicate Reordered(before: seq<string>, after: seq<string>) {
    && NeedsReorder(before)
    && multiset(after) == multiset(before)
    && Hrms in after
    && IndexOf(after, Hrms) + 1 < |after|
    && after[IndexOf(after, Hrms) + 1] == Indeed
    && RemoveAt(after, IndexOf(after, Hrms) + 1) == RemoveAt(before, IndexOf(before, Indeed))
    && IndexOf(after, Hrms) == IndexOf(before, Hrms) - 1
  }

  /** The list surgery of ensure_proper_app_order: remove 'indeed', then
      insert it right after 'hrms', when 'hrms' comes after it; otherwise the
      list is left as it is. */
  method ReorderApps(apps: seq<string>) returns (r: seq<string>, moved: bool)
    ensures moved <==> NeedsReorder(apps)
    ensures !moved ==> r == apps
    ensures moved ==> Reordered(apps, r) && r != apps
  {
    r := apps;
    moved := false;
    if Hrms in r && Indeed in r {
      var hrmsIndex := IndexOf(r, Hrms);
      var indeedIndex := IndexOf(r, Indeed);
      if hrmsIndex > indeedIndex {
        r := RemoveAt(r, indeedIndex);
        RemovalShiftsIndex(apps, Indeed, Hrms);
        hrmsIndex := IndexOf(r, Hrms);
        r := r[..hrmsIndex + 1] + [Indeed] + r[hrmsIndex + 1..];
        InsertAfterHrms(apps);
        moved := true;
      }
    }
  }

  /** Removing the first `x`, which comes before the first `y`, moves `y`
      one place forward. */
  lemma RemovalShiftsIndex(apps: seq<string>, x: string, y: string)
    requires x in apps && y in apps && IndexOf(apps, y) > IndexOf(apps, x)
    ensures var removed := RemoveAt(apps, IndexOf(apps, x));
      y in removed && IndexOf(removed, y) == IndexOf(apps, y) - 1
  {
    var i := IndexOf(apps, x);
    var h := IndexOf(apps, y);
    var removed := RemoveAt(apps, i);
    assert forall j :: 0 <= j < i ==> removed[j] == apps[j];
    assert forall j :: i <= j < |removed| ==> removed[j] == apps[j + 1];
    IndexOfIs(removed, y, h - 1);
  }

  /** Moving the first `x` to just after the first `y`, when `x` comes
      first: a permutation that keeps the rest in place, with `y` one place
      further forward. */
  lemma MoveAfter(apps: seq<string>, x: string, y: string)
    requires x != y && x in apps && y in apps && IndexOf(apps, y) > IndexOf(apps, x)
    ensures var removed := RemoveAt(apps, IndexOf(apps, x));
      && y in removed
      && var h := IndexOf(removed, y);
         var r := removed[..h + 1] + [x] + removed[h + 1..];
         && multiset(r) == multiset(apps)
         && y in r && IndexOf(r, y) == h && h + 1 < |r| && r[h + 1] == x
         && RemoveAt(r, h + 1) == removed
         && h == IndexOf(apps, y) - 1
  {
    RemovalShiftsIndex(apps, x, y);
    var removed := RemoveAt(apps, IndexOf(apps, x));
    var h := IndexOf(removed, y);
    InsertAt(removed, h, x);
    var r := removed[..h + 1] + [x] + removed[h + 1..];
    assert forall j :: 0 <= j <= h ==> r[j] == removed[j];
    IndexOfIs(r, y, h);
  }

  /** Inserting `x` just after index `h`: the element sits at h + 1, the
      prefix stays, and removing it again gives the list back. */
  lemma InsertAt(s: seq<string>, h: nat, x: string)
    requires h < |s|
    ensures var r := s[..h + 1] + [x] + s[h + 1..];
      && |r| == |s| + 1 && r[h + 1] == x && r[..h + 1] == s[..h + 1]
      && RemoveAt(r, h + 1) == s
      && multiset(r) == multiset(s) + multiset{x}
  {
    var r := s[..h + 1] + [x] + s[h + 1..];
    assert r[..h + 1] == s[..h + 1] && r[h + 2..] == s[h + 1..];
    assert s == s[..h + 1] + s[h + 1..];
  }

  /** Inserting 'indeed' right after 'hrms' in the list without its first
      'indeed' gives a reordering of the original list. */
  lemma InsertAfterHrms(apps: seq<string>)
    requires NeedsReorder(apps)
    ensures var removed := RemoveAt(apps, IndexOf(apps, Indeed));
      Hrms in removed &&
      var h := IndexOf(removed, Hrms);
      var r := removed[..h + 1] + [Indeed] + removed[h + 1..];
      Reordered(apps, r) && r != apps
  {
    assert Indeed != Hrms by {
      assert Indeed[0] != Hrms[0];
    }
    MoveAfter(apps, Indeed, Hrms);
    var removed := RemoveAt(apps, IndexOf(apps, Indeed));
    var h := IndexOf(removed, Hrms);
    var r := removed[..h + 1] + [Indeed] + removed[h + 1..];
    assert multiset(r) == multiset(apps) && Hrms in r && IndexOf(r, Hrms) == h;
    assert h + 1 < |r| && r[h + 1] == Indeed && RemoveAt(r, h + 1) == removed;
    assert h == IndexOf(apps, Hrms) - 1;
    assert apps[h + 1] == Hrms && r[h + 1] != apps[h + 1];
    assert Reordered(apps, r);
  }

  /** With a single 'indeed', a list once reordered needs no further
      reordering. */
  lemma ReorderSettles(before: seq<string>, after: seq<string>)
    requires Reordered(before, after)
    requires multiset(before)[Indeed] == 1
    ensures !NeedsReorder(after)
  {
    var h := IndexOf(after, Hrms);
    forall j | 0 <= j < h + 1
      ensures after[j] != Indeed
    {
    }
    IndexOfIs(after, Indeed, h + 1);
  }

  /** The app list the hook reads from the text of apps.txt: the file is
      opened in text mode, split with readlines(), and each line stripped. */
  function ReadApps(text: string): seq<string> {
    ParseApps(Readlines(Universal(text)))
  }

  /** An apps.txt with old Mac line ends lists indeed before hrms, so it
      needs reordering. */
  lemma MacAppsTxtNeedsReorder()
    ensures ReadApps(Indeed + "\r" + Hrms + "\r") == [Indeed, Hrms]
    ensures NeedsReorder(ReadApps(Indeed + "\r" + Hrms + "\r"))
  {
    assert CleanApp(Indeed) && CleanApp(Hrms);
    MacAppsRead(Indeed, Hrms);
    IndexOfIs([Indeed, Hrms], Hrms, 1);
    IndexOfIs([Indeed, Hrms], Indeed, 0);
  }

  /** Two apps, each ended by an old Mac line end, are read as two apps. */
  lemma MacAppsRead(a: string, b: string)
    requires CleanApp(a) && CleanApp(b)
    ensures ReadApps(a + "\r" + b + "\r") == [a, b]
  {
    MacLines(a, b);
    var apps := [a, b];
    AppsTextCons(apps);
    assert apps[1..] == [b];
    AppsTextCons([b]);
    assert [b][1..] == [];
    assert AppsText(apps) == a + "\n" + b + "\n";
    WrittenAppsReadBack(apps);
  }

  /** The apps read from any text are clean. */
  lemma ReadAppsClean(text: string)
    ensures forall i :: 0 <= i < |ReadApps(text)| ==> CleanApp(ReadApps(text)[i])
  {
    ReadlinesNoReturn(Universal(text));
    ParsedAppsAreClean(Readlines(Universal(text)));
  }

  /** Reading back, in text mode, what the hook writes gives the same apps. */
  lemma WrittenAppsRead(apps: seq<string>)
    requires forall i :: 0 <= i < |apps| ==> CleanApp(apps[i])
    ensures ReadApps(AppsText(apps)) == apps
  {
    AppsTextNoReturn(apps);
    UniversalKeeps(AppsText(apps));
    WrittenAppsReadBack(apps);
  }

  /** ensure_proper_app_order. `appsTxt` is the site's apps.txt, None when it
      does not exist; the result is the text written back, None when the
      file is left alone. Reading the written file back gives the reordered
      list. */
  method EnsureProperAppOrder(appsTxt: Option<string>) returns (written: Option<string>)
    ensures appsTxt.None? ==> written.None?
    ensures appsTxt.Some? ==> (written.Some? <==> NeedsReorder(ReadApps(appsTxt.value)))
    ensures written.Some? ==>
      && appsTxt.Some?
      && Reordered(ReadApps(appsTxt.value), ReadApps(written.value))
  {
    written := None;
    if appsTxt.Some? {
      var apps := ReadApps(appsTxt.value);
      var reordered, moved := ReorderApps(apps);
      if moved {
        var text := WriteApps(reordered);
        ReadAppsClean(appsTxt.value);
        assert forall i :: 0 <= i < |reordered| ==> reordered[i] in multiset(apps);
        WrittenAppsRead(reordered);
        written := Some(text);
      }
    }
  }

  /** after_install, as far as the dependency check and the app order go:
      the order is only fixed once the dependencies are validated, and a
      failed validation is re-raised with its own message. */
  method AfterInstall(installed: Option<seq<string>>, doctypes: set<string>, appsTxt: Option<string>)
    returns (o: Outcome, written: Option<string>)
    ensures o.Fail? ==> written.None?
    ensures var apps := (if IsAppInstalled(installed, Erpnext) then [] else [Erpnext])
                        + (if IsAppInstalled(installed, Hrms) then [] else [Hrms]);
      && (apps != [] ==> o == Fail(MissingAppsPrefix + Join(apps, ", ")))
      && (apps == [] && Missing(RequiredDoctypes, doctypes) != [] ==>
            o == Fail(MissingDoctypesPrefix + Join(Missing(RequiredDoctypes, doctypes), ", ")))
    ensures o.Pass? <==>
      IsAppInstalled(installed, Erpnext) && IsAppInstalled(installed, Hrms)
      && forall d :: d in RequiredDoctypes ==> d in doctypes
    ensures o.Pass? && written.Some? ==>
      && appsTxt.Some?
      && Reordered(ReadApps(appsTxt.value), ReadApps(written.value))
    ensures o.Pass? ==> (written.Some? <==> appsTxt.Some? && NeedsReorder(ReadApps(appsTxt.value)))
  {
    written := None;
    o := ValidateDependencies(installed, doctypes);
    if o.Pass? {
      written := EnsureProperAppOrder(appsTxt);
    }
  }
}
