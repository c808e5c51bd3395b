/** ewm.categories: the category entity, CategoryMapper, and CategoryServiceImpl
    over its table of categories. */
module Categories {
  import opened Common
  import opened Tables

  datatype Category = Category(id: int, name: string)

  datatype CategoryCreateDto = CategoryCreateDto(name: string)

  datatype CategoryDto = CategoryDto(id: int, name: string)

  function CategoryId(category: Category): int
  {
    category.id
  }

  function MapModelToCategoryDto(category: Category): CategoryDto
  {
    CategoryDto(category.id, category.name)
  }

  class CategoryService {
    /** The categories table, in insertion (and so id) order. */
    var rows: seq<Category>
    /** The id the identity column hands out next. */
    var nextId: int

    ghost predicate Valid()
      reads this
    {
      nextId >= 1 && IdsAscending(rows, CategoryId) && IdsBelow(rows, CategoryId, nextId)
    }

    constructor ()
      ensures Valid() && rows == []
    {
      rows := [];
      nextId := 1;
    }

    /** checkAndReturnCategory: the stored category with that id, or NotFound. */
    function CheckAndReturnCategory(id: int): (r: Result<Category>)
      reads this
      ensures r.Ok? <==> HasId(rows, CategoryId, id)
      ensures r.Ok? ==> r.value in rows && r.value.id == id
      ensures r.Err? ==> r.error == NotFound
    {
      match FindById(rows, CategoryId, id)
      case Some(category) => Ok(category)
      case None => Err(NotFound)
    }

    /** getById: the DTO of the stored category, or NotFound. */
    function GetById(categoryId: int): (r: Result<CategoryDto>)
      reads this
      ensures r.Ok? <==> HasId(rows, CategoryId, categoryId)
      ensures r.Ok? ==>
                && r.value.id == categoryId
                && exists i :: 0 <= i < |rows| && rows[i].id == categoryId && rows[i].name == r.value.name
      ensures r.Err? ==> r.error == NotFound
    {
      match CheckAndReturnCategory(categoryId)
      case Ok(category) => Ok(MapModelToCategoryDto(category))
      case Err(e) => Err(e)
    }

    /** getCategories: the page with index from / size, as DTOs. */
    function GetCategories(from: nat, size: nat): (r: seq<CategoryDto>)
      requires size > 0
      reads this
      ensures |r| <= size
      ensures |r| == |Page(rows, from, size)|
      ensures forall k :: 0 <= k < |r| ==>
                && PageStart(from, size) + k < |rows|
                && r[k] == MapModelToCategoryDto(rows[PageStart(from, size) + k])
    {
      var page := Page(rows, from, size);
      seq(|page|, k requires 0 <= k < |page| => MapModelToCategoryDto(page[k]))
    }

    /** create: the new category gets the next id and the given name, and is
        found again under that id. */
    method Create(createDto: CategoryCreateDto) returns (r: CategoryDto)
      requires Valid()
      modifies this
      ensures Valid() && nextId == old(nextId) + 1
      ensures r == CategoryDto(old(nextId), createDto.name)
      ensures rows == old(rows) + [Category(r.id, createDto.name)]
      ensures GetById(r.id) == Ok(CategoryDto(r.id, createDto.name))
      ensures forall id :: id != r.id ==> GetById(id) == old(GetById(id))
    {
      var category := Category(nextId, createDto.name);
      FindAfterAppend(rows, CategoryId, category, nextId);
      AppendKeepsIds(rows, CategoryId, category, nextId);
      rows := rows + [category];
      nextId := nextId + 1;
      r := MapModelToCategoryDto(category);
    }

    /** update: a missing id is NotFound and nothing is written; otherwise only
        the name of that category changes and its id stays. */
    method Update(categoryId: int, createDto: CategoryCreateDto) returns (r: Result<CategoryDto>)
      requires Valid()
      modifies this
      ensures Valid() && nextId == old(nextId)
      ensures !old(HasId(rows, CategoryId, categoryId)) ==> r == Err(NotFound) && rows == old(rows)
      ensures old(HasId(rows, CategoryId, categoryId)) ==>
        && r == Ok(CategoryDto(categoryId, createDto.name))
        && rows == ReplaceById(old(rows), CategoryId, Category(categoryId, createDto.name))
        && GetById(categoryId) == r
        && forall id :: id != categoryId ==> GetById(id) == old(GetById(id))
    {
      var found := CheckAndReturnCategory(categoryId);
      if found.Err? {
        return Err(found.error);
      }
      var category := found.value;
      category := category.(name := createDto.name);
      FindAfterReplace(rows, CategoryId, category);
      ReplaceKeepsIds(rows, CategoryId, category, nextId);
      rows := ReplaceById(rows, CategoryId, category);
      r := Ok(MapModelToCategoryDto(category));
    }

    /** deleteById: a missing id is NotFound and the table is unchanged;
        otherwise exactly that row goes. */
    method DeleteById(categoryId: int) returns (r: Outcome)
      requires Valid()
      modifies this
      ensures Valid() && nextId == old(nextId)
      ensures !old(HasId(rows, CategoryId, categoryId)) ==> r == Fail(NotFound) && rows == old(rows)
      ensures old(HasId(rows, CategoryId, categoryId)) ==>
        && r == Pass
        && rows == RemoveById(old(rows), CategoryId, categoryId)
        && |rows| == |old(rows)| - 1
        && GetById(categoryId) == Err(NotFound)
    {
      var found := CheckAndReturnCategory(categoryId);
      if found.Err? {
        return Fail(found.error);
      }
      RemoveOne(rows, CategoryId, categoryId);
      RemoveKeepsAscending(rows, CategoryId, categoryId);
      RemoveKeepsBelow(rows, CategoryId, categoryId, nextId);
      rows := RemoveById(rows, CategoryId, categoryId);
      r := Pass;
    }
  }
}
