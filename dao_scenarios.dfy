/**
 * The round trips the DAO's tests exercise, derived from the method contracts alone.
 * Each scenario takes the name and description the test uses as parameters, so it holds
 * for every entity that constructs and fits its columns, the tests' values among them.
 */
module DaoScenarios {
  import opened Wrappers
  import opened Validation
  import opened EntityModel
  import opened EntityDao

  /** Values an entity accepts and the table can store. */
  predicate Storable(name: string, description: string) {
    IsValidName(Some(name)) && IsValidDescription(Some(description))
    && FitsColumns(Some(name), Some(description))
  }

  /** Add an entity, then get its key: the key is not 0 and the row carries the name and description. */
  method AddAndGet(dao: EntityDAOImpl, name: string, description: string) returns (key: int, retrieved: Option<Row>)
    requires dao.table.Valid() && Storable(name, description)
    modifies dao.table
    ensures dao.table.Valid()
    ensures key != 0
    ensures retrieved == Some(Row(key, Some(name), Some(description)))
  {
    var created := Entity.Create(0, Some(name), Some(description), None, None);
    var entity := created.value;
    ghost var before := dao.table.rows;
    dao.Add(entity);
    key := entity.id;
    AddThenGet(before, key, entity.name, entity.description, key);
    retrieved := dao.Get(key);
  }

  /** Add an entity, rename it, update, get: the new name is read back with the old description. */
  method UpdateAndGet(dao: EntityDAOImpl, name: string, newName: string, description: string)
    returns (retrieved: Option<Row>)
    requires dao.table.Valid() && Storable(name, description) && Storable(newName, description)
    modifies dao.table
    ensures dao.table.Valid()
    ensures retrieved.Some? && retrieved.value.name == Some(newName)
    ensures retrieved.value.description == Some(description)
  {
    var created := Entity.Create(0, Some(name), Some(description), None, None);
    var entity := created.value;
    ghost var before := dao.table.rows;
    dao.Add(entity);
    var id := entity.id;
    ghost var original := Row(id, Some(name), Some(description));
    assert dao.table.rows == before + [original] && !HasId(before, id);
    var renamed := entity.SetName(Some(newName));
    assert entity.name == Some(newName) && entity.description == Some(description) && entity.id == id;
    dao.Update(entity);
    ghost var renamedRow := Row(id, Some(newName), Some(description));
    UpdateAddedRow(before, original, Some(newName), Some(description));
    assert dao.table.rows == before + [renamedRow];
    AddThenGet(before, id, Some(newName), Some(description), id);
    retrieved := dao.Get(id);
  }

  /** Add an entity, delete its key, get: nothing is found and the rows are as before the add. */
  method DeleteAndGet(dao: EntityDAOImpl, name: string, description: string) returns (retrieved: Option<Row>)
    requires dao.table.Valid() && Storable(name, description)
    modifies dao.table
    ensures dao.table.Valid()
    ensures retrieved == None
    ensures dao.table.rows == old(dao.table.rows)
  {
    var created := Entity.Create(0, Some(name), Some(description), None, None);
    var entity := created.value;
    dao.Add(entity);
    dao.Delete(entity.id);
    AddThenDeleteRestores(old(dao.table.rows), entity.id, entity.name, entity.description);
    DeleteThenGet(old(dao.table.rows) + [Row(entity.id, entity.name, entity.description)], entity.id, entity.id);
    retrieved := dao.Get(entity.id);
  }

  /** A name with 3..50 characters and no blank at either end, with a description of at most 255, is storable. */
  lemma PlainValuesStorable(name: string, description: string)
    requires 3 <= |name| <= 50 && !IsBlank(name[0]) && !IsBlank(name[|name| - 1])
    requires |description| <= 255
    ensures Storable(name, description)
  {
    NoBlankEndsTrimToSelf(name);
  }

  /** The values the DAO's tests use are storable. */
  lemma TestValuesStorable()
    ensures Storable("Test Name", "Test Description")
    ensures Storable("Original Name", "Original Desc") && Storable("Updated Name", "Original Desc")
    ensures Storable("To Be Deleted", "Delete me")
    ensures Storable("Name1", "Desc1") && Storable("Name2", "Desc2")
  {
    PlainValuesStorable("Test Name", "Test Description");
    PlainValuesStorable("Original Name", "Original Desc");
    PlainValuesStorable("Updated Name", "Original Desc");
    PlainValuesStorable("To Be Deleted", "Delete me");
    PlainValuesStorable("Name1", "Desc1");
    PlainValuesStorable("Name2", "Desc2");
  }
}
