/**
 * The `Entity` record: an id, a validated name and description, and two
 * timestamps. Every write to the name or the description goes through a
 * setter that throws (here: returns `Fail`) before assigning when the value
 * breaks its rule, so a rejected value never reaches the field.
 */
module EntityModel {
  import opened Wrappers
  import opened Validation

  /** A `LocalDateTime`; the model never compares or computes with one. */
  type Timestamp = int

  class Entity {
    var id: int
    var name: Option<string>
    var description: Option<string>
    var createdAt: Option<Timestamp>
    var updatedAt: Option<Timestamp>

    /** Both field rules hold. */
    ghost predicate Valid()
      reads this
    {
      IsValidName(name) && IsValidDescription(description)
    }

    /**
     * The constructor's first step: a fresh object with Java's null defaults for
     * name, description and timestamps, after `this.id = id` has run.
     */
    constructor Allocate(id: int)
      ensures this.id == id
      ensures name == None && description == None
      ensures createdAt == None && updatedAt == None
    {
      this.id := id;
      name := None;
      description := None;
      createdAt := None;
      updatedAt := None;
    }

    /**
     * `new Entity(id, name, description, createdAt, updatedAt)`: assigns the id,
     * then calls `setName` and `setDescription`, whose exception escapes the
     * constructor, then assigns the timestamps.
     */
    static method Create(id: int, name: Option<string>, description: Option<string>,
                         createdAt: Option<Timestamp>, updatedAt: Option<Timestamp>)
      returns (r: Result<Entity, string>)
      ensures r.Success? <==> IsValidName(name) && IsValidDescription(description)
      ensures !IsValidName(name) ==> r == Failure(NAME_ERROR)
      ensures IsValidName(name) && !IsValidDescription(description) ==> r == Failure(DESCRIPTION_ERROR)
      ensures r.Success? ==> fresh(r.value) && r.value.Valid()
      ensures r.Success? ==> r.value.id == id && r.value.name == name && r.value.description == description
      ensures r.Success? ==> r.value.createdAt == createdAt && r.value.updatedAt == updatedAt
    {
      var e := new Entity.Allocate(id);
      var named := e.SetName(name);
      if named.Fail? {
        return Failure(named.error);
      }
      var described := e.SetDescription(description);
      if described.Fail? {
        return Failure(described.error);
      }
      e.createdAt := createdAt;
      e.updatedAt := updatedAt;
      r := Success(e);
    }

    /** `setId`: no check. */
    method SetId(id: int)
      modifies this`id
      ensures this.id == id
    {
      this.id := id;
    }

    /** `setName`: throws for a null name or a trimmed length outside 3..50, else stores the name untrimmed. */
    method SetName(name: Option<string>) returns (r: Outcome<string>)
      modifies this`name
      ensures r.Pass? <==> IsValidName(name)
      ensures r.Fail? ==> r.error == NAME_ERROR && this.name == old(this.name)
      ensures r.Pass? ==> this.name == name
    {
      if name.None? || |Trim(name.value)| < MIN_NAME_LENGTH || |Trim(name.value)| > MAX_NAME_LENGTH {
        return Fail(NAME_ERROR);
      }
      this.name := name;
      r := Pass;
    }

    /** `setDescription`: throws for more than 255 raw characters; null is stored as is. */
    method SetDescription(description: Option<string>) returns (r: Outcome<string>)
      modifies this`description
      ensures r.Pass? <==> IsValidDescription(description)
      ensures r.Fail? ==> r.error == DESCRIPTION_ERROR && this.description == old(this.description)
      ensures r.Pass? ==> this.description == description
    {
      if description.Some? && |description.value| > MAX_DESCRIPTION_LENGTH {
        return Fail(DESCRIPTION_ERROR);
      }
      this.description := description;
      r := Pass;
    }

    /** `setCreatedAt`: no check. */
    method SetCreatedAt(createdAt: Option<Timestamp>)
      modifies this`createdAt
      ensures this.createdAt == createdAt
    {
      this.createdAt := createdAt;
    }

    /** `setUpdatedAt`: no check. */
    method SetUpdatedAt(updatedAt: Option<Timestamp>)
      modifies this`updatedAt
      ensures this.updatedAt == updatedAt
    {
      this.updatedAt := updatedAt;
    }

    /** `toString` shows the name; for a valid entity that is a non-null name of 3..50 trimmed characters. */
    function ToString(): (s: Option<string>)
      reads this
      ensures s == name
      ensures Valid() ==> s.Some? && MIN_NAME_LENGTH <= |Trim(s.value)| <= MAX_NAME_LENGTH
    {
      name
    }
  }
}
