/**
 Registration of the plugin's configuration with StarCluster, as the package
 installer (setup.py) performs it: the user's configuration gains a
 `[global]` include of the plugin's configuration unless it already has one,
 and the plugin's configuration gets its key name tied to the installing user.
 File reads and writes become functions from old text to new text.
 */
module Register {
  import opened Strings

  const ConfigName := "scidbcluster.config"

  /** The include directive whose presence marks the configuration as registered. */
  const Directive := "INCLUDE=~/.starcluster/" + ConfigName

  const GlobalMarker := "[global]"

  /** What `add_include` puts in place of each `[global]` marker, or in front of a text without one. */
  const Insertion := GlobalMarker + "\n" + Directive + "\n"

  const KeyPattern := "KEYNAME = AWSKey"

  /** The key-name line for the installing user. */
  function KeyLine(user: string): string {
    "KEYNAME = " + user + "Key"
  }

  /** The insertion holds the directive line right after the marker. */
  lemma InsertionHoldsDirective()
    ensures StartsWith(Insertion, GlobalMarker)
    ensures Insertion[|GlobalMarker| + 1..|GlobalMarker| + 1 + |Directive|] == Directive
    ensures Contains(Insertion, Directive)
  {
    var tail := Directive + "\n";
    assert Insertion == (GlobalMarker + "\n") + tail;
    assert StartsWith(tail, Directive);
    ContainsConcat(GlobalMarker + "\n", tail, Directive);
  }

  /**
   `add_include`: every `[global]` marker becomes the marker followed by the
   directive line; a text without a marker gets the marker and directive
   line in front. Either way the result holds the directive.
   */
  function AddInclude(config: string): (r: string)
    ensures Contains(r, Directive)
    ensures !Contains(config, GlobalMarker) ==> StartsWith(r, Insertion) && r[|Insertion|..] == config
    ensures |config| < |r|
  {
    InsertionHoldsDirective();
    if Contains(config, GlobalMarker) then
      var r := Replace(config, GlobalMarker, Insertion);
      ContainsTransitive(r, Insertion, Directive);
      r
    else
      var r := Insertion + config;
      ContainsConcat(Insertion, config, Directive);
      assert r[..|Insertion|] == Insertion;
      r
  }

  /**
   With markers present, the text is cut at every marker; the pieces, which
   hold no marker, are kept in order, and each gap that held a marker now
   holds the insertion. In particular an existing `INCLUDE=` line is never
   merged with the new one: it stays in its piece, after the new line.
   */
  lemma AddIncludeAtMarkers(config: string)
    requires Contains(config, GlobalMarker)
    ensures var parts := Split(config, GlobalMarker);
      && |parts| > 1
      && config == Join(parts, GlobalMarker)
      && AddInclude(config) == Join(parts, Insertion)
      && (forall i :: 0 <= i < |parts| ==> !Contains(parts[i], GlobalMarker))
  {
    SplitFindsOccurrence(config, GlobalMarker);
    SplitJoinRoundTrip(config, GlobalMarker);
    SplitPiecesAvoid(config, GlobalMarker);
    ReplaceIsJoinOfSplit(config, GlobalMarker, Insertion);
  }

  /** Each marker adds exactly the directive line and the newlines around it to the length. */
  lemma AddIncludeLength(config: string)
    ensures !Contains(config, GlobalMarker) ==> |AddInclude(config)| == |config| + |Insertion|
    ensures Contains(config, GlobalMarker) ==>
      |AddInclude(config)| == |config| + (|Split(config, GlobalMarker)| - 1) * (|Directive| + 2)
  {
    if Contains(config, GlobalMarker) {
      assert AddInclude(config) == Replace(config, GlobalMarker, Insertion);
      ReplaceLength(config, GlobalMarker, Insertion);
      assert |Insertion| - |GlobalMarker| == |Directive| + 2;
    }
  }

  /**
   A configuration with a single `[global]` marker: the directive line goes
   right after the marker, and everything before and after it is kept
   verbatim. In particular an existing `INCLUDE=` line in the section stays
   as it was, after the new line, with no comma-joined merge.
   */
  lemma AddIncludeAfterMarker(pre: string, rest: string)
    requires !Contains(pre, GlobalMarker) && !Contains(rest, GlobalMarker)
    ensures AddInclude(pre + GlobalMarker + rest) == pre + Insertion + rest
  {
    assert StartsWith(GlobalMarker + rest, GlobalMarker);
    ContainsConcat(pre, GlobalMarker + rest, GlobalMarker);
    assert pre + GlobalMarker + rest == pre + (GlobalMarker + rest);
    MarkerOpensOnce();
    ReplaceAfterPrefix(pre, GlobalMarker, Insertion, rest);
  }

  /** `[` opens the marker and appears nowhere else in it. */
  lemma MarkerOpensOnce()
    ensures forall k :: 1 <= k < |GlobalMarker| ==> GlobalMarker[k] != GlobalMarker[0]
  {
  }

  /**
   `add_include` alone is not re-run safe: a second application always
   changes the text again.
   */
  lemma AddIncludeNotIdempotent(config: string)
    ensures AddInclude(AddInclude(config)) != AddInclude(config)
  {
  }

  /**
   The guarded registration of `RegisterPluginDecorator.run`: the
   configuration is left exactly as it was when it already contains the
   directive (exact, case-sensitive substring test), and gets `add_include`
   otherwise. The result always holds the directive.
   */
  function RegisterInclude(config: string): (r: string)
    ensures Contains(r, Directive)
    ensures Contains(config, Directive) ==> r == config
    ensures !Contains(config, Directive) ==> r == AddInclude(config)
  {
    if Contains(config, Directive) then config else AddInclude(config)
  }

  /** Running the registration twice is the same as running it once. */
  lemma RegisterIncludeIdempotent(config: string)
    ensures RegisterInclude(RegisterInclude(config)) == RegisterInclude(config)
  {
  }

  /**
   `set_keyname`: every `KEYNAME = AWSKey` becomes the user's key line and
   every other character stays in place; a text without the pattern is
   unchanged.
   */
  function SetKeyname(config: string, user: string): (r: string)
    ensures r == Join(Split(config, KeyPattern), KeyLine(user))
    ensures config == Join(Split(config, KeyPattern), KeyPattern)
    ensures !Contains(config, KeyPattern) ==> r == config
    ensures Contains(config, KeyPattern) ==> Contains(r, KeyLine(user))
  {
    ReplaceIsJoinOfSplit(config, KeyPattern, KeyLine(user));
    SplitJoinRoundTrip(config, KeyPattern);
    Replace(config, KeyPattern, KeyLine(user))
  }

  /** The two files `RegisterPluginDecorator.run` rewrites. */
  datatype Files = Files(starclusterConfig: string, pluginConfig: string)

  /**
   `RegisterPluginDecorator.run` after the package files are in place: the
   user's StarCluster configuration gets the guarded include, and the
   plugin's own configuration gets the user's key name.
   */
  function Install(files: Files, user: string): (r: Files)
    ensures Contains(r.starclusterConfig, Directive)
    ensures Contains(files.starclusterConfig, Directive) ==> r.starclusterConfig == files.starclusterConfig
    ensures !Contains(files.starclusterConfig, Directive) ==> r.starclusterConfig == AddInclude(files.starclusterConfig)
    ensures r.pluginConfig == Join(Split(files.pluginConfig, KeyPattern), KeyLine(user))
    ensures !Contains(files.pluginConfig, KeyPattern) ==> r.pluginConfig == files.pluginConfig
    ensures Contains(files.pluginConfig, KeyPattern) ==> Contains(r.pluginConfig, KeyLine(user))
  {
    Files(RegisterInclude(files.starclusterConfig), SetKeyname(files.pluginConfig, user))
  }

  /** A second install leaves the StarCluster configuration as the first one left it. */
  lemma InstallRerunKeepsStarclusterConfig(files: Files, user: string, user': string)
    ensures Install(Install(files, user), user').starclusterConfig == Install(files, user).starclusterConfig
  {
    RegisterIncludeIdempotent(files.starclusterConfig);
  }
}
