/**
 * The extension manager: four registries, keyed by block type, of the suppliers
 * an extension block brings (block, parser, serializer, processor), and the four
 * factories the core uses, each asking the base factory first and the registry
 * when the base does not know the type.
 */
module ExtensionManagers {
  import opened Wrappers

  /** A supplier handed in by an extension, known only by its identity. */
  type Supplier = nat

  datatype FactoryError = UnknownBlockType | ProcessorNotFound | BlockTypeAlreadyManaged

  /** Which factory made the object: the base one, or an extension's supplier. */
  datatype Made = FromBase(blockType: int) | FromExtension(supplier: Supplier)

  /** The types each base factory knows (the base processor factory knows the basic block types only). */
  datatype BaseTypes = BaseTypes(blocks: set<int>, parsers: set<int>, serializers: set<int>, processors: set<int>)

  class ExtensionManager {
    const base: BaseTypes
    var blockFactory: map<int, Supplier>
    var parserFactory: map<int, Supplier>
    var serializerFactory: map<int, Supplier>
    var processorFactory: map<int, Supplier>

    /** The four registries always hold the same types. */
    predicate Valid()
      reads this
    {
      && parserFactory.Keys == blockFactory.Keys
      && serializerFactory.Keys == blockFactory.Keys
      && processorFactory.Keys == blockFactory.Keys
    }

    constructor(base: BaseTypes)
      ensures Valid() && this.base == base
      ensures blockFactory == map[] && parserFactory == map[] && serializerFactory == map[] && processorFactory == map[]
    {
      this.base := base;
      blockFactory, parserFactory, serializerFactory, processorFactory := map[], map[], map[], map[];
    }

    /**
     * addExtensionBlock: a type already registered is refused and nothing changes;
     * otherwise the type is registered in all four registries together.
     */
    method AddExtensionBlock(blockType: int, block: Supplier, parser: Supplier, serializer: Supplier, processor: Supplier)
        returns (r: Result<(), FactoryError>)
      requires Valid()
      modifies this
      ensures Valid()
      ensures r.Err? <==> blockType in old(blockFactory)
      ensures r.Err? ==> r.error == BlockTypeAlreadyManaged
      ensures r.Err? ==> (blockFactory == old(blockFactory) && parserFactory == old(parserFactory)
                          && serializerFactory == old(serializerFactory) && processorFactory == old(processorFactory))
      ensures r.Ok? ==> (blockFactory == old(blockFactory)[blockType := block]
                         && parserFactory == old(parserFactory)[blockType := parser]
                         && serializerFactory == old(serializerFactory)[blockType := serializer]
                         && processorFactory == old(processorFactory)[blockType := processor])
      ensures r.Ok? && blockType !in base.blocks ==> CreateBlock(blockType) == Ok(FromExtension(block))
      ensures r.Ok? && blockType !in base.processors ==> CreateProcessor(blockType) == Ok(FromExtension(processor))
    {
      if blockType in blockFactory {
        return Err(BlockTypeAlreadyManaged);
      }
      blockFactory := blockFactory[blockType := block];
      parserFactory := parserFactory[blockType := parser];
      serializerFactory := serializerFactory[blockType := serializer];
      processorFactory := processorFactory[blockType := processor];
      return Ok(());
    }

    /** The core block factory: the base factory's block, else a registered supplier's, else UnknownBlockType. */
    function CreateBlock(blockType: int): (r: Result<Made, FactoryError>)
      reads this
      ensures r.Ok? <==> blockType in base.blocks || blockType in blockFactory
      ensures r.Ok? ==> r.value == if blockType in base.blocks then FromBase(blockType) else FromExtension(blockFactory[blockType])
      ensures r.Err? ==> r.error == UnknownBlockType
    {
      if blockType in base.blocks then Ok(FromBase(blockType))
      else if blockType in blockFactory then Ok(FromExtension(blockFactory[blockType]))
      else Err(UnknownBlockType)
    }

    /**
     * The core parser factory: the base factory parses the types it knows and any
     * block read as an unknown extension block; otherwise the registry is asked
     * (its membership test is made on the block registry, its supplier taken from
     * the parser registry).
     */
    function CreateParser(blockType: int, unknownExtension: bool): (r: Result<Made, FactoryError>)
      requires Valid()
      reads this
      ensures r.Ok? <==> blockType in base.parsers || unknownExtension || blockType in parserFactory
      ensures r.Ok? ==> r.value == if blockType in base.parsers || unknownExtension then FromBase(blockType) else FromExtension(parserFactory[blockType])
      ensures r.Err? ==> r.error == UnknownBlockType
    {
      if blockType in base.parsers || unknownExtension then Ok(FromBase(blockType))
      else if blockType in blockFactory then Ok(FromExtension(parserFactory[blockType]))
      else Err(UnknownBlockType)
    }

    /** The core serializer factory, by the block's type. */
    function CreateSerializer(blockType: int): (r: Result<Made, FactoryError>)
      reads this
      ensures r.Ok? <==> blockType in base.serializers || blockType in serializerFactory
      ensures r.Ok? ==> r.value == if blockType in base.serializers then FromBase(blockType) else FromExtension(serializerFactory[blockType])
      ensures r.Err? ==> r.error == UnknownBlockType
    {
      if blockType in base.serializers then Ok(FromBase(blockType))
      else if blockType in serializerFactory then Ok(FromExtension(serializerFactory[blockType]))
      else Err(UnknownBlockType)
    }

    /** The core processor factory: ProcessorNotFound when neither knows the type. */
    function CreateProcessor(blockType: int): (r: Result<Made, FactoryError>)
      reads this
      ensures r.Ok? <==> blockType in base.processors || blockType in processorFactory
      ensures r.Ok? ==> r.value == if blockType in base.processors then FromBase(blockType) else FromExtension(processorFactory[blockType])
      ensures r.Err? ==> r.error == ProcessorNotFound
    {
      if blockType in base.processors then Ok(FromBase(blockType))
      else if blockType in processorFactory then Ok(FromExtension(processorFactory[blockType]))
      else Err(ProcessorNotFound)
    }
  }

  /**
   * A registered extension never replaces a base type: an extension for a type the
   * base factories know is accepted, yet the factories keep answering from the base.
   */
  lemma BaseTypesWin(m: ExtensionManager, blockType: int)
    requires m.Valid() && blockType in m.blockFactory
    requires blockType in m.base.blocks && blockType in m.base.processors
    ensures m.CreateBlock(blockType) == Ok(FromBase(blockType))
    ensures m.CreateProcessor(blockType) == Ok(FromBase(blockType))
  {
  }

  /** Every registered type gets all four objects, whatever the base factories know. */
  lemma RegisteredTypeServed(m: ExtensionManager, blockType: int, unknownExtension: bool)
    requires m.Valid() && blockType in m.blockFactory
    ensures m.CreateBlock(blockType).Ok? && m.CreateParser(blockType, unknownExtension).Ok?
    ensures m.CreateSerializer(blockType).Ok? && m.CreateProcessor(blockType).Ok?
  {
  }
}
