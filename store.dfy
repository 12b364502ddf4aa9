/** The persistence layer as an in-memory object whose tables the route handlers update. */
module Store {
  import opened Entities

  class Database {
    var users: seq<User>
    var profiles: seq<Profile>
    var jobs: seq<Job>
    var applications: seq<Application>
    var nextId: Id

    /** The current contents of the store. */
    function Tables(): Tables
      reads this
    {
      Entities.Tables(users, profiles, jobs, applications, nextId)
    }

    ghost predicate Valid()
      reads this
    {
      WellFormed(Tables())
    }

    /** An empty store. */
    constructor ()
      ensures Valid()
      ensures Tables() == Entities.Tables([], [], [], [], 0)
    {
      users, profiles, jobs, applications, nextId := [], [], [], [], 0;
    }
  }
}
