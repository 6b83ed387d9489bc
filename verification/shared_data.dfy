/** SharedData.cs: the state the migration steps hand on to each other. */
module SharedState {
  import opened Options

  /** The contents of the shared data, as one step hands them on to the next. */
  datatype Shared = Shared(options: MigrationOptions, localBranches: seq<string>, remoteBranches: seq<string>, tags: seq<string>)

  class SharedData {
    /** The options the run was started with. */
    var options: MigrationOptions
    /** The local branches, as git lists them. */
    var localBranches: seq<string>
    /** The remote-tracking branches, as git lists them. */
    var remoteBranches: seq<string>
    /** The remote-tracking branches that stand for SVN tags. */
    var tags: seq<string>

    /** A new record for a run: the three branch lists start empty. */
    constructor (options: MigrationOptions)
      ensures this.options == options
      ensures localBranches == [] && remoteBranches == [] && tags == []
      ensures Value() == Shared(options, [], [], [])
    {
      this.options := options;
      localBranches := [];
      remoteBranches := [];
      tags := [];
    }

    /** The record's current contents. */
    function Value(): Shared
      reads this
    {
      Shared(options, localBranches, remoteBranches, tags)
    }
  }
}
