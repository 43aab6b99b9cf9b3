/**
 * `EntityDialogController`: the edit dialog holds one entity and two text
 * controls. `processResult` checks the name text itself and, when it passes,
 * writes both texts into the entity through its validating setters.
 */
module DialogControl {
  import opened Wrappers
  import opened Validation
  import opened EntityModel

  /** The dialog's own check of the name text, written out separately from `setName`'s. */
  predicate NameFieldAccepted(name: Option<string>) {
    !(name == None || |Trim(name.value)| < 3 || |Trim(name.value)| > 50)
  }

  /** The dialog and `setName` accept exactly the same names, so an accepted name never makes `setName` throw. */
  lemma DialogCheckAgreesWithSetName(name: Option<string>)
    ensures NameFieldAccepted(name) <==> IsValidName(name)
  {
  }

  /** The dialog's boundary cases: 1 and 51 characters are rejected, "Valid Name" is accepted. */
  lemma DialogNameExamples()
    ensures !NameFieldAccepted(Some("a"))
    ensures !NameFieldAccepted(Some(seq(51, _ => 'a')))
    ensures NameFieldAccepted(Some("Valid Name"))
  {
    assert !NameFieldAccepted(Some("a")) by {
      assert |Trim("a")| <= 1;
    }
    assert !NameFieldAccepted(Some(seq(51, _ => 'a'))) by {
      NoBlankEndsTrimToSelf(seq(51, _ => 'a'));
    }
    assert NameFieldAccepted(Some("Valid Name")) by {
      NoBlankEndsTrimToSelf("Valid Name");
    }
  }

  class EntityDialogController {
    /** `nameField.getText()`. */
    var nameText: Option<string>
    /** `descriptionArea.getText()`. */
    var descriptionText: Option<string>
    /** The entity being edited. */
    var entity: Entity?

    /** A dialog whose controls are still empty and which holds no entity yet. */
    constructor ()
      ensures nameText == Some("") && descriptionText == Some("") && entity == null
    {
      nameText := Some("");
      descriptionText := Some("");
      entity := null;
    }

    /**
     * `setEntity(e)`: holds `e` and copies its name and description into the
     * controls. With null it holds null and then builds `new Entity(null, "",
     * null, null, null)`, whose empty name makes the constructor throw.
     */
    method SetEntity(e: Entity?) returns (r: Outcome<string>)
      modifies this
      ensures e != null ==> r == Pass && entity == e && nameText == e.name && descriptionText == e.description
      ensures e == null ==> r == Fail(NAME_ERROR) && entity == null
      ensures e == null ==> nameText == old(nameText) && descriptionText == old(descriptionText)
    {
      entity := e;
      if e != null {
        nameText := e.name;
        descriptionText := e.description;
        r := Pass;
      } else {
        ShortNameBoundary();
        assert Trim("") == [];
        var created := Entity.Create(0, Some(""), None, None, None);
        r := Fail(created.error);
      }
    }

    /**
     * `processResult`: false, touching nothing, when the name text is null or
     * its trimmed length is outside 3..50. Otherwise the name is written
     * first; then the description goes through `setDescription`, which throws
     * for more than 255 characters, leaving the new name in place. The dialog
     * itself never checks the description.
     */
    method ProcessResult() returns (r: Result<bool, string>)
      requires entity != null
      modifies entity`name, entity`description
      ensures !NameFieldAccepted(nameText) ==>
        r == Success(false) && entity.name == old(entity.name) && entity.description == old(entity.description)
      ensures NameFieldAccepted(nameText) && IsValidDescription(descriptionText) ==>
        r == Success(true) && entity.name == nameText && entity.description == descriptionText
      ensures NameFieldAccepted(nameText) && !IsValidDescription(descriptionText) ==>
        r == Failure(DESCRIPTION_ERROR) && entity.name == nameText && entity.description == old(entity.description)
      ensures old(entity.Valid()) ==> entity.Valid()
    {
      var name := nameText;
      var description := descriptionText;
      if name == None || |Trim(name.value)| < 3 || |Trim(name.value)| > 50 {
        return Success(false);
      }
      DialogCheckAgreesWithSetName(name);
      var named := entity.SetName(name);
      assert named == Pass;
      var described := entity.SetDescription(description);
      if described.Fail? {
        return Failure(described.error);
      }
      r := Success(true);
    }
  }
}
