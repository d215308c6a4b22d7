/**
 * `create_rsync_command` and `create_rsync_dry_run_command` of src/main.rs:
 * the argument lists handed to `rsync`.  The source fills a
 * `std::process::Command` with `cmd.arg` calls; here the result is the
 * program name and the argument list.  The behaviour flags are chosen as
 * values of `Flag` and then spelled out as the strings rsync receives.
 */
module Commands {

  /** The check boxes of the form (the `AppState` fields the builders read). */
  datatype Options = Options(
    archive: bool, recursive: bool, symlinks: bool, permissions: bool,
    time: bool, group: bool, compress: bool)

  datatype Command = Command(program: string, args: seq<string>)

  /** The behaviour flags the transfer command may carry. */
  datatype Flag = Archive | Recursive | Links | Perms | Times | Group | Compress

  const SshPublicKeyOnly := "ssh -o PasswordAuthentication=no -o PreferredAuthentications=publickey"

  function Spelling(f: Flag): string {
    match f
    case Archive => "-a"
    case Recursive => "-r"
    case Links => "-l"
    case Perms => "-p"
    case Times => "-t"
    case Group => "-g"
    case Compress => "-z"
  }

  /** The position of each flag in the order the builder emits them. */
  function Rank(f: Flag): nat {
    match f
    case Archive => 0
    case Recursive => 1
    case Links => 2
    case Perms => 3
    case Times => 4
    case Group => 5
    case Compress => 6
  }

  /** The flags between "--progress" and the two paths, appended one check box at a time. */
  function Flags(o: Options): seq<Flag> {
    Then(ModeFlags(o), o.compress, Compress)
  }

  /** "-a", or the single flags that archive mode would imply. */
  function ModeFlags(o: Options): seq<Flag> {
    if o.archive then [Archive]
    else
      var fs := Then([], o.recursive, Recursive);
      var fs := Then(fs, o.symlinks, Links);
      var fs := Then(fs, o.permissions, Perms);
      var fs := Then(fs, o.time, Times);
      Then(fs, o.group, Group)
  }

  /** `fs` followed by `f` when `on`. */
  function Then(fs: seq<Flag>, on: bool, f: Flag): seq<Flag> {
    fs + (if on then [f] else [])
  }

  /** The flags as the strings handed to rsync. */
  function Spell(fs: seq<Flag>): (args: seq<string>)
    ensures |args| == |fs|
    ensures forall i | 0 <= i < |fs| :: args[i] == Spelling(fs[i])
  {
    if fs == [] then [] else [Spelling(fs[0])] + Spell(fs[1..])
  }

  /** Distinct flags are spelled differently. */
  lemma SpellingInjective(f: Flag, g: Flag)
    ensures Spelling(f) == Spelling(g) ==> f == g
  {
    if f != g {
      assert Spelling(f)[1] != Spelling(g)[1];
    }
  }

  /** A flag's string is among the spelled arguments exactly when the flag is among the flags. */
  lemma SpelledMember(fs: seq<Flag>, f: Flag)
    ensures Spelling(f) in Spell(fs) <==> f in fs
  {
    if Spelling(f) in Spell(fs) {
      var i :| 0 <= i < |fs| && Spell(fs)[i] == Spelling(f);
      SpellingInjective(fs[i], f);
    }
    if f in fs {
      var i :| 0 <= i < |fs| && fs[i] == f;
      assert Spell(fs)[i] == Spelling(f);
    }
  }

  /** Flags in the builder's order, each at most once. */
  predicate Ordered(fs: seq<Flag>) {
    forall i, j | 0 <= i < j < |fs| :: Rank(fs[i]) < Rank(fs[j])
  }

  /**
   * What the flag part of the argument list means for the form `o`:
   * "-a" exactly when archive mode is on; each single mode flag exactly when
   * it is asked for and archive mode is off (archive mode implies them);
   * "-z" exactly when compression is on; in the builder's order and
   * without repetition.
   */
  predicate ChosenFlags(o: Options, fs: seq<Flag>) {
    && (Archive in fs <==> o.archive)
    && (Recursive in fs <==> !o.archive && o.recursive)
    && (Links in fs <==> !o.archive && o.symlinks)
    && (Perms in fs <==> !o.archive && o.permissions)
    && (Times in fs <==> !o.archive && o.time)
    && (Group in fs <==> !o.archive && o.group)
    && (Compress in fs <==> o.compress)
    && Ordered(fs)
  }

  /** Every flag of `fs` ranks below `k`. */
  predicate Below(fs: seq<Flag>, k: nat) {
    forall i | 0 <= i < |fs| :: Rank(fs[i]) < k
  }

  /** Appending a flag that ranks after all others keeps the list ordered. */
  lemma ThenOrdered(fs: seq<Flag>, on: bool, f: Flag)
    requires Ordered(fs) && Below(fs, Rank(f))
    ensures Ordered(Then(fs, on, f)) && Below(Then(fs, on, f), Rank(f) + 1)
  {
  }

  /** The builder chooses the flags the form asks for. */
  lemma FlagsMeaning(o: Options)
    ensures ChosenFlags(o, Flags(o))
  {
    ArchiveChosen(o);
    RecursiveChosen(o);
    LinksChosen(o);
    PermsChosen(o);
    TimesChosen(o);
    GroupChosen(o);
    CompressChosen(o);
    ModeFlagsOrdered(o);
    ThenOrdered(ModeFlags(o), o.compress, Compress);
  }

  // Which flags appear: "-a" exactly when archive mode is on, each single
  // mode flag exactly when it is asked for and archive mode is off (archive
  // mode implies them), and "-z" exactly when compression is on.

  lemma ArchiveChosen(o: Options)
    ensures Archive in Flags(o) <==> o.archive
  {
  }

  lemma RecursiveChosen(o: Options)
    ensures Recursive in Flags(o) <==> !o.archive && o.recursive
  {
  }

  lemma LinksChosen(o: Options)
    ensures Links in Flags(o) <==> !o.archive && o.symlinks
  {
  }

  lemma PermsChosen(o: Options)
    ensures Perms in Flags(o) <==> !o.archive && o.permissions
  {
  }

  lemma TimesChosen(o: Options)
    ensures Times in Flags(o) <==> !o.archive && o.time
  {
  }

  lemma GroupChosen(o: Options)
    ensures Group in Flags(o) <==> !o.archive && o.group
  {
  }

  lemma CompressChosen(o: Options)
    ensures Compress in Flags(o) <==> o.compress
  {
  }

  /** The mode flags come in the builder's order, all before "-z". */
  lemma ModeFlagsOrdered(o: Options)
    ensures var m := ModeFlags(o);
      Ordered(m) && Below(m, Rank(Compress))
  {
    if o.archive {
      assert ModeFlags(o) == [Archive];
    } else {
      var fs: seq<Flag> := [];
      ThenOrdered(fs, o.recursive, Recursive);
      fs := Then(fs, o.recursive, Recursive);
      ThenOrdered(fs, o.symlinks, Links);
      fs := Then(fs, o.symlinks, Links);
      ThenOrdered(fs, o.permissions, Perms);
      fs := Then(fs, o.permissions, Perms);
      ThenOrdered(fs, o.time, Times);
      fs := Then(fs, o.time, Times);
      ThenOrdered(fs, o.group, Group);
      assert ModeFlags(o) == Then(fs, o.group, Group);
    }
  }

  /** The form determines the flag list: there is one list meeting `ChosenFlags`. */
  lemma ChosenFlagsUnique(o: Options, fs: seq<Flag>, gs: seq<Flag>)
    requires ChosenFlags(o, fs) && ChosenFlags(o, gs)
    ensures fs == gs
  {
    forall f ensures f in fs <==> f in gs {
      match f
      case Archive =>
      case Recursive =>
      case Links =>
      case Perms =>
      case Times =>
      case Group =>
      case Compress =>
    }
    OrderedByMembers(fs, gs);
  }

  /** The first flag of an ordered list ranks below every other flag in it. */
  lemma OrderedHeadLeast(fs: seq<Flag>)
    requires Ordered(fs) && fs != []
    ensures forall f | f in fs[1..] :: Rank(fs[0]) < Rank(f)
  {
    forall f | f in fs[1..] ensures Rank(fs[0]) < Rank(f) {
      var i :| 0 <= i < |fs[1..]| && fs[1..][i] == f;
      assert fs[i + 1] == f;
    }
  }

  /** An ordered list is determined by its members. */
  lemma {:induction false} OrderedByMembers(fs: seq<Flag>, gs: seq<Flag>)
    requires Ordered(fs) && Ordered(gs)
    requires forall f :: f in fs <==> f in gs
    ensures fs == gs
    decreases |fs|
  {
    if fs != [] {
      assert fs[0] in gs;
    }
    if gs != [] {
      assert gs[0] in fs;
    }
    if fs != [] && gs != [] {
      OrderedHeadLeast(fs);
      OrderedHeadLeast(gs);
      assert fs == [fs[0]] + fs[1..] && gs == [gs[0]] + gs[1..];
      forall f ensures f in fs[1..] <==> f in gs[1..] {
        assert f in fs <==> f == fs[0] || f in fs[1..];
        assert f in gs <==> f == gs[0] || f in gs[1..];
      }
      OrderedByMembers(fs[1..], gs[1..]);
    }
  }

  /**
   * `create_rsync_command`: itemised changes and progress first, then the
   * behaviour flags, then source and destination last.
   */
  function CreateRsyncCommand(o: Options, src: string, dest: string): (c: Command)
    ensures c.program == "rsync"
    ensures |c.args| >= 4 && c.args[0] == "-i" && c.args[1] == "--progress"
    ensures c.args[|c.args| - 2] == src && c.args[|c.args| - 1] == dest
  {
    Command("rsync", Framed(Spell(Flags(o)), src, dest))
  }

  /** Between "--progress" and the two paths stand exactly the flags the form asks for, spelled out. */
  lemma CreateRsyncCommandFlags(o: Options, src: string, dest: string)
    ensures var c := CreateRsyncCommand(o, src, dest);
      exists fs :: ChosenFlags(o, fs) && c.args[2..|c.args| - 2] == Spell(fs)
  {
    var fs := Flags(o);
    FlagsMeaning(o);
    var args := Framed(Spell(fs), src, dest);
    assert ChosenFlags(o, fs) && args[2..|args| - 2] == Spell(fs);
  }

  /** `f` between the two leading options and the two paths. */
  function Framed(f: seq<string>, src: string, dest: string): (args: seq<string>)
    ensures |args| == |f| + 4 && args[0] == "-i" && args[1] == "--progress"
    ensures args[2..|args| - 2] == f && args[|args| - 2] == src && args[|args| - 1] == dest
  {
    var args := ["-i", "--progress"] + f + [src, dest];
    assert args[2..|args| - 2] == f;
    args
  }

  /**
   * `create_rsync_dry_run_command`: an ssh that may only use public keys, a
   * dry run in archive mode ("-an") with statistics, then source and
   * destination.
   */
  function CreateRsyncDryRunCommand(o: Options, src: string, dest: string): (c: Command)
    ensures c.program == "rsync"
    ensures |c.args| == 6
    ensures c.args[..4] == ["-e", SshPublicKeyOnly, "-an", "--stats"]
    ensures c.args[4..] == [src, dest]
  {
    Command("rsync", ["-e", SshPublicKeyOnly, "-an", "--stats", src, dest])
  }

  /**
   * The dry run ignores the form's check boxes, and it names the same two
   * endpoints, in the same order, as the transfer that follows it.
   */
  lemma DryRunMatchesTransfer(o1: Options, o2: Options, src: string, dest: string)
    ensures CreateRsyncDryRunCommand(o1, src, dest) == CreateRsyncDryRunCommand(o2, src, dest)
    ensures var dry := CreateRsyncDryRunCommand(o1, src, dest).args;
      var run := CreateRsyncCommand(o2, src, dest).args;
      dry[|dry| - 2..] == run[|run| - 2..]
  {
  }
}
