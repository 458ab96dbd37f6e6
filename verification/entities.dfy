/**
 The typed records some pages read field by field. Pages that edit an entity
 through the generic modal handle it as a `Form` instead.
 */
module Entities {
  import opened Values

  /** An order: `total` arrives from the server as a number or a numeric string. */
  datatype Pedido = Pedido(id_pedido: string, estado: string, total: Value)

  /** A payment method offered by the charge dialog. */
  datatype MetodoPago = MetodoPago(id_metodo: string, tipo: string)

  datatype Categoria = Categoria(id_categoria: string, nombre: string)

  datatype Sucursal = Sucursal(id_sucursal: string, nombre: string)

  datatype Rol = Rol(id_rol: string, nombre: string)

  datatype Plato = Plato(id_plato: string, nombre: string)

  datatype Ingrediente = Ingrediente(nombre: string, unidad_medida: string)

  /** A recipe line: `plato` is the linked dish's id (`r.plato?.id_plato`),
      `ingrediente` the linked ingredient, either of which may be missing. */
  datatype Receta = Receta(
    id_receta: string,
    plato: Option<string>,
    ingrediente: Option<Ingrediente>,
    cantidad: Value)
}
