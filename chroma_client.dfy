/** `MockChromaClient`: an in-memory vector store, a dictionary from collection name to the
    list of embeddings stored in it. */
module ChromaClient {
  import opened Wrappers
  import opened Errors
  import opened ChromaModels
  import opened ChromaSearch
  import Text

  /** The `ChromaException` an operation on an unknown collection throws. */
  function MissingCollection(name: string): Error {
    Error(ChromaException, "Collection '" + name + "' does not exist")
  }

  const EmptyCollectionName := Error(ArgumentException,
    "Collection name cannot be empty (Parameter 'collectionName')")

  class MockChromaClient {
    const config: ChromaConfiguration
    var collections: map<string, seq<VectorEmbedding>>

    constructor (config: ChromaConfiguration)
      ensures this.config == config
      ensures collections == map[]
    {
      this.config := config;
      collections := map[];
    }

    /** The mock store is always reachable. */
    method HealthCheck() returns (healthy: bool)
      ensures healthy
    {
      healthy := true;
    }

    /** Rejects a blank name; creating an existing collection keeps its contents. */
    method CreateCollection(name: string) returns (r: Outcome<Error>)
      modifies this
      ensures Text.Blank(name) ==> r == Fail(EmptyCollectionName) && collections == old(collections)
      ensures !Text.Blank(name) ==> r == Pass && name in collections
      ensures !Text.Blank(name) && name in old(collections) ==> collections == old(collections)
      ensures !Text.Blank(name) && name !in old(collections) ==> collections == old(collections)[name := []]
    {
      if Text.Blank(name) {
        return Fail(EmptyCollectionName);
      }
      if name in collections {
        return Pass;
      }
      collections := collections[name := []];
      r := Pass;
    }

    /** Removes the collection if there is one; deleting an unknown name is not an error. */
    method DeleteCollection(name: string)
      modifies this
      ensures collections == old(collections) - {name}
    {
      collections := collections - {name};
    }

    method CollectionExists(name: string) returns (exists_: bool)
      ensures exists_ <==> name in collections
    {
      exists_ := name in collections;
    }

    /** Appends the batch, in order, to an existing collection. */
    method AddEmbeddings(name: string, batch: seq<VectorEmbedding>) returns (r: Outcome<Error>)
      modifies this
      ensures name !in old(collections) ==> r == Fail(MissingCollection(name)) && collections == old(collections)
      ensures name in old(collections) ==>
        r == Pass && collections == old(collections)[name := old(collections)[name] + batch]
    {
      if name !in collections {
        return Fail(MissingCollection(name));
      }
      collections := collections[name := collections[name] + batch];
      r := Pass;
    }

    /** The `limit` stored embeddings nearest to the query, nearest first. */
    method Search(name: string, query: Vector, limit: int) returns (r: Result<seq<VectorSearchResult>, Error>)
      ensures name !in collections ==> r == Failure(MissingCollection(name))
      ensures name in collections ==> r == Nearest(collections[name], query, limit)
    {
      if name !in collections {
        return Failure(MissingCollection(name));
      }
      r := Nearest(collections[name], query, limit);
    }

    /** Removes every embedding of the collection whose id is `id`. */
    method DeleteEmbedding(name: string, id: string) returns (r: Outcome<Error>)
      modifies this
      ensures name !in old(collections) ==> r == Fail(MissingCollection(name)) && collections == old(collections)
      ensures name in old(collections) ==>
        r == Pass && collections == old(collections)[name := RemoveById(old(collections)[name], id)]
    {
      if name !in collections {
        return Fail(MissingCollection(name));
      }
      collections := collections[name := RemoveById(collections[name], id)];
      r := Pass;
    }
  }
}
