/** `ParseCommandLine` of the C++ client: flags (`-name` followed by as many
    arguments as the flag specification says) come before the positional
    arguments.  The flag map and the positional list are passed in and come
    back updated, also on error. */
module CommandLine {
  import opened Results

  datatype CommandLineError =
    | Malformed(arg: string)
    | InvalidFlag(flag: string)
    | DuplicatedFlag(flag: string)
    | InsufficientArguments(flag: string)
    | InvalidArguments(flag: string)

  /** The message `ParseCommandLine` returns; the empty string means success. */
  function Message(e: Option<CommandLineError>): (m: string)
    ensures m == "" <==> e.None?
  {
    match e
    case None => ""
    case Some(Malformed(a)) => "Error: Malformed argument \"" + a + "\""
    case Some(InvalidFlag(f)) => "Error: Invalid flag \"" + f + "\""
    case Some(DuplicatedFlag(f)) => "Error: Duplicated flag \"" + f + "\""
    case Some(InsufficientArguments(f)) => "Error: Insufficient arguments for \"" + f + "\""
    case Some(InvalidArguments(f)) => "Error: Invalid arguments for \"" + f + "\""
  }

  /** An argument whose first character is '-'. */
  predicate IsDash(a: string)
  {
    |a| >= 1 && a[0] == '-'
  }

  datatype Parsed = Parsed(error: Option<CommandLineError>, flags: map<string, seq<string>>, positionals: seq<string>)

  /** The parse from argument `c` on, with `reading` true while only flags have
      been seen. */
  function Parse(args: seq<string>, spec: map<string, nat>, c: nat, reading: bool,
                 flags: map<string, seq<string>>, positionals: seq<string>): (r: Parsed)
    requires c <= |args|
    ensures |positionals| <= |r.positionals| <= |positionals| + |args| - c
    ensures flags.Keys <= r.flags.Keys <= flags.Keys + spec.Keys
    ensures forall f :: f in flags ==> r.flags[f] == flags[f]
    decreases |args| - c
  {
    if c == |args| then Parsed(None, flags, positionals)
    else
      var a := args[c];
      if IsDash(a) then
        if !reading then Parsed(Some(Malformed(a)), flags, positionals)
        else if |a| == 1 then Parse(args, spec, c + 1, reading, flags, positionals)
        else
          var f := a[1..];
          if f !in spec then Parsed(Some(InvalidFlag(f)), flags, positionals)
          else if f in flags then Parsed(Some(DuplicatedFlag(f)), flags, positionals)
          else if c + spec[f] >= |args| then Parsed(Some(InsufficientArguments(f)), flags, positionals)
          else if exists d :: c < d <= c + spec[f] && IsDash(args[d]) then
            Parsed(Some(InvalidArguments(f)), flags, positionals)
          else Parse(args, spec, c + spec[f] + 1, reading, flags[f := args[c + 1..c + spec[f] + 1]], positionals)
      else Parse(args, spec, c + 1, false, flags, positionals + [a])
  }

  /** The loop over `argv[ibegin..iend)`; `args` are those arguments. */
  method ParseCommandLine(args: seq<string>, spec: map<string, nat>,
                          flags0: map<string, seq<string>>, positionals0: seq<string>)
    returns (message: string, flags: map<string, seq<string>>, positionals: seq<string>)
    ensures var p := Parse(args, spec, 0, true, flags0, positionals0);
      message == Message(p.error) && flags == p.flags && positionals == p.positionals
  {
    var reading := true;
    flags, positionals := flags0, positionals0;
    var c := 0;
    while c < |args|
      invariant c <= |args|
      invariant Parse(args, spec, c, reading, flags, positionals) == Parse(args, spec, 0, true, flags0, positionals0)
      decreases |args| - c
    {
      var a := args[c];
      if |a| >= 1 && a[0] == '-' {
        if !reading {
          return Message(Some(Malformed(a))), flags, positionals;
        }
        if |a| == 1 {
          c := c + 1;
        } else {
          var f := a[1..];
          if f !in spec {
            return Message(Some(InvalidFlag(f))), flags, positionals;
          }
          if f in flags {
            return Message(Some(DuplicatedFlag(f))), flags, positionals;
          }
          var nargs := spec[f];
          if c + nargs >= |args| {
            return Message(Some(InsufficientArguments(f))), flags, positionals;
          }
          var flagArgs := [];
          var d := 0;
          while d < nargs
            invariant 0 <= d <= nargs
            invariant flagArgs == args[c + 1..c + d + 1]
            invariant forall e :: c < e <= c + d ==> !IsDash(args[e])
          {
            if |args[c + d + 1]| >= 1 && args[c + d + 1][0] == '-' {
              assert IsDash(args[c + d + 1]);
              return Message(Some(InvalidArguments(f))), flags, positionals;
            }
            flagArgs := flagArgs + [args[c + d + 1]];
            d := d + 1;
          }
          flags := flags[f := flagArgs];
          c := c + nargs + 1;
        }
      } else {
        if reading {
          reading := false;
        }
        positionals := positionals + [a];
        c := c + 1;
      }
    }
    message := Message(None);
  }

  /** On success the new positional arguments are the tail of the argument
      list from the first positional on, in order, and none of them starts
      with '-' (a dash after the first positional is an error). */
  lemma {:induction false} PositionalsAreATail(args: seq<string>, spec: map<string, nat>, c: nat, reading: bool,
                                               flags: map<string, seq<string>>, positionals: seq<string>)
    requires c <= |args|
    ensures var p := Parse(args, spec, c, reading, flags, positionals);
      p.error.None? ==>
        (exists j :: c <= j <= |args| && p.positionals == positionals + args[j..]
          && (!reading ==> j == c)
          && forall k :: j <= k < |args| ==> !IsDash(args[k]))
    decreases |args| - c
  {
    var p := Parse(args, spec, c, reading, flags, positionals);
    if c == |args| {
      assert p.positionals == positionals + args[c..];
    } else if p.error.None? {
      var a := args[c];
      if IsDash(a) {
        if |a| == 1 {
          PositionalsAreATail(args, spec, c + 1, reading, flags, positionals);
        } else {
          var f := a[1..];
          PositionalsAreATail(args, spec, c + spec[f] + 1, reading, flags[f := args[c + 1..c + spec[f] + 1]], positionals);
        }
      } else {
        PositionalsAreATail(args, spec, c + 1, false, flags, positionals + [a]);
        assert args[c..] == [a] + args[c + 1..];
        assert positionals + [a] + args[c + 1..] == positionals + args[c..];
      }
    }
  }

  /** Argument `i` is `-f` for a flag of the specification, and `values` are
      the `spec[f]` arguments after it, none of which starts with '-'. */
  predicate TakenAt(args: seq<string>, spec: map<string, nat>, f: string, i: nat, values: seq<string>)
  {
    && f in spec && i + spec[f] < |args| && args[i] == "-" + f
    && values == args[i + 1..i + spec[f] + 1]
    && forall e :: i < e <= i + spec[f] ==> !IsDash(args[e])
  }

  /** On success every flag added is in the specification, its values are the
      `spec[f]` arguments right after `-f`, none of which starts with '-', and
      flags present before keep their values. */
  lemma {:induction false} FlagsTakeTheirArguments(args: seq<string>, spec: map<string, nat>, c: nat, reading: bool,
                                                   flags: map<string, seq<string>>, positionals: seq<string>)
    requires c <= |args|
    ensures var p := Parse(args, spec, c, reading, flags, positionals);
      p.error.None? ==>
        && flags.Keys <= p.flags.Keys
        && (forall f :: f in flags ==> p.flags[f] == flags[f])
        && forall f :: f in p.flags && f !in flags ==> exists i :: c <= i && TakenAt(args, spec, f, i, p.flags[f])
    decreases |args| - c
  {
    var p := Parse(args, spec, c, reading, flags, positionals);
    if c < |args| && p.error.None? {
      var a := args[c];
      if IsDash(a) {
        if |a| == 1 {
          FlagsTakeTheirArguments(args, spec, c + 1, reading, flags, positionals);
        } else {
          var f := a[1..];
          var n := spec[f];
          var flags' := flags[f := args[c + 1..c + n + 1]];
          FlagsTakeTheirArguments(args, spec, c + n + 1, reading, flags', positionals);
          assert a == "-" + f;
          assert TakenAt(args, spec, f, c, p.flags[f]);
        }
      } else {
        FlagsTakeTheirArguments(args, spec, c + 1, false, flags, positionals + [a]);
      }
    }
  }

  lemma Examples()
    ensures Parse(["-l", "repo", "era5"], map["l" := 1, "s" := 1], 0, true, map[], [])
      == Parsed(None, map["l" := ["repo"]], ["era5"])
    ensures Parse(["-", "era5"], map[], 0, true, map[], []) == Parsed(None, map[], ["era5"])
    ensures Parse(["era5", "-l", "repo"], map["l" := 1], 0, true, map[], [])
      == Parsed(Some(Malformed("-l")), map[], ["era5"])
    ensures Parse(["-l"], map["l" := 1], 0, true, map[], [])
      == Parsed(Some(InsufficientArguments("l")), map[], [])
    ensures Parse(["-l", "-s", "x"], map["l" := 1, "s" := 1], 0, true, map[], [])
      == Parsed(Some(InvalidArguments("l")), map[], [])
  {
    assert ["-l", "repo", "era5"][1..2] == ["repo"];
    assert IsDash(["-l", "-s", "x"][1]);
  }
}
